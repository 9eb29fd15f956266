/** The rule engines for scripts and scenes, the resource-path derivation, and one run of the
    linter over files that have already been found and read. */
module Linter {
  import opened Text
  import opened Problems
  import opened Scripts
  import opened Scenes

  /** The variable-declaration keyword, with the whitespace around it, that cuts the contents
      for the static-typing check. */
  const VarPatterns: seq<string> := [" var ", "\tvar "]

  predicate NonEmptyPatterns(patterns: seq<string>) {
    forall k :: 0 <= k < |patterns| ==> |patterns[k]| > 0
  }

  /** Every part split on `p`, the pieces kept in order. */
  function SplitEach(parts: seq<string>, p: string): (r: seq<string>)
    requires |p| > 0
    ensures |r| >= |parts|
  {
    if |parts| == 0 then [] else Split(parts[0], p) + SplitEach(parts[1..], p)
  }

  /** The segments of `s` after splitting on each pattern in turn. */
  function Segments(s: string, patterns: seq<string>): (r: seq<string>)
    requires NonEmptyPatterns(patterns)
  {
    if |patterns| == 0 then [s]
    else SplitEach(Segments(s, patterns[..|patterns| - 1]), patterns[|patterns| - 1])
  }

  lemma {:induction false} SplitEachAvoids(parts: seq<string>, p: string, q: string)
    requires |p| > 0
    ensures Avoids(SplitEach(parts, p), p)
    ensures Avoids(parts, q) ==> Avoids(SplitEach(parts, p), q)
    decreases |parts|
  {
    if |parts| > 0 {
      SplitAvoidsPattern(parts[0], p);
      SplitEachAvoids(parts[1..], p, q);
      if Avoids(parts, q) {
        assert parts[0] in parts;
        assert forall x :: x in parts[1..] ==> x in parts;
        SplitKeepsAbsence(parts[0], p, q);
      }
    }
  }

  /** `split_on_any` always returns a segment, and no segment contains any of the patterns. */
  lemma {:induction false} SegmentsAvoidPatterns(s: string, patterns: seq<string>)
    requires NonEmptyPatterns(patterns)
    ensures |Segments(s, patterns)| >= 1
    ensures forall k :: 0 <= k < |patterns| ==> Avoids(Segments(s, patterns), patterns[k])
    decreases |patterns|
  {
    if |patterns| > 0 {
      var n := |patterns| - 1;
      var earlier := patterns[..n];
      SegmentsAvoidPatterns(s, earlier);
      var before := Segments(s, earlier);
      forall k | 0 <= k < |patterns|
        ensures Avoids(Segments(s, patterns), patterns[k])
      {
        if k < n {
          assert earlier[k] == patterns[k];
          SplitEachAvoids(before, patterns[n], patterns[k]);
        } else {
          SplitEachAvoids(before, patterns[n], patterns[n]);
        }
      }
    }
  }

  /** With one pattern, joining the segments with that pattern gives back the input. */
  lemma SegmentsOfOnePatternJoin(s: string, p: string)
    requires |p| > 0
    ensures Join(Segments(s, [p]), p) == s
  {
    assert [p][..0] == [];
    assert Segments(s, [p][..0]) == [s];
    assert [s][1..] == [];
    assert SplitEach([s], p) == Split(s, p) + SplitEach([], p);
    assert Segments(s, [p]) == Split(s, p);
    SplitJoin(s, p);
  }

  /** `split_on_any`: starts from the whole string and re-splits every segment on each pattern. */
  method SplitOnAny(s: string, patterns: seq<string>) returns (result: seq<string>)
    requires NonEmptyPatterns(patterns)
    ensures result == Segments(s, patterns)
  {
    result := [s];
    for i := 0 to |patterns|
      invariant result == Segments(s, patterns[..i])
    {
      assert patterns[..i + 1][..i] == patterns[..i];
      result := SplitEach(result, patterns[i]);
    }
    assert patterns[..|patterns|] == patterns;
  }

  /** The first `:` or `=` of the segment is an `=`: a declaration assigned without a type. */
  predicate AssignsBeforeType(segment: string) {
    exists i :: 0 <= i < |segment| && segment[i] == '=' && forall j :: 0 <= j < i ==> segment[j] != ':'
  }

  /** No segment of the contents, the text before the first declaration included, uses `=`
      before any `:`. */
  predicate StaticallyTyped(contents: string) {
    forall segment :: segment in Segments(contents, VarPatterns) ==> !AssignsBeforeType(segment)
  }

  /** The failure of the class-name check: no class name, or a different one. */
  function ClassNameIssue(s: Script): (i: Issue)
    ensures i == NoClassName <==> s.className.None?
  {
    if s.className.None? then NoClassName else ClassNameMismatch
  }

  /** The failure of the `extends Node` check: no `extends`, or another base. */
  function ExtendsIssue(s: Script): (i: Issue)
    ensures i == ExtendsNothing <==> s.extendsName.None?
  {
    if s.extendsName.None? then ExtendsNothing else ExtendsNotNode
  }

  /** `check_behaviour_script_isolated`: the class-name check, then the `extends` check. */
  function CheckBehaviourScriptIsolated(s: Script): (r: Outcome)
    ensures r.Pass? <==> s.className == Some(s.name) && s.extendsName == Some("Node")
    ensures r.Fail? ==> r.problem.Problem? && r.problem.file == s.fullName
    ensures s.className != Some(s.name) ==> r == Fail(Problem(s.fullName, ClassNameIssue(s)))
    ensures s.className == Some(s.name) && s.extendsName != Some("Node") ==>
      r == Fail(Problem(s.fullName, ExtendsIssue(s)))
  {
    var named := CheckMatchingScriptNameAndClassName(s);
    if named.Fail? then named else CheckExtendsNode(s)
  }

  /** `check_value_script_isolated`: the class-name check, then the `extends` check, then the
      export-only body. */
  function CheckValueScriptIsolated(s: Script): (r: Outcome)
    ensures r.Pass? <==> s.className == Some(s.name) && s.extendsName == Some("Node") && ExportOnlyBody(s.contents)
    ensures r.Fail? ==> r.problem.Problem? && r.problem.file == s.fullName
    ensures s.className != Some(s.name) ==> r == Fail(Problem(s.fullName, ClassNameIssue(s)))
    ensures s.className == Some(s.name) && s.extendsName != Some("Node") ==>
      r == Fail(Problem(s.fullName, ExtendsIssue(s)))
    ensures s.className == Some(s.name) && s.extendsName == Some("Node") && !ExportOnlyBody(s.contents) ==>
      r == Fail(Problem(s.fullName, NonExportVar))
  {
    var named := CheckMatchingScriptNameAndClassName(s);
    if named.Fail? then named
    else
      var extended := CheckExtendsNode(s);
      if extended.Fail? then extended
      else if !ExportOnlyBody(s.contents) then Fail(Problem(s.fullName, NonExportVar))
      else Pass
  }

  /** `check_reference_script_isolated`: no class name, then `extends Node`, then an export-only
      body. */
  function CheckReferenceScriptIsolated(s: Script): (r: Outcome)
    ensures r.Pass? <==> s.className.None? && s.extendsName == Some("Node") && ExportOnlyBody(s.contents)
    ensures r.Fail? ==> r.problem.Problem? && r.problem.file == s.fullName
    ensures s.className.Some? ==> r == Fail(Problem(s.fullName, ReferenceHasClassName))
    ensures s.className.None? && s.extendsName != Some("Node") ==> r == Fail(Problem(s.fullName, ExtendsIssue(s)))
    ensures s.className.None? && s.extendsName == Some("Node") && !ExportOnlyBody(s.contents) ==>
      r == Fail(Problem(s.fullName, NonExportVar))
  {
    if s.className.Some? then Fail(Problem(s.fullName, ReferenceHasClassName))
    else
      var extended := CheckExtendsNode(s);
      if extended.Fail? then extended
      else if !ExportOnlyBody(s.contents) then Fail(Problem(s.fullName, NonExportVar))
      else Pass
  }

  /** The rules a script of each kind must keep besides the common ones. */
  predicate KindRules(s: Script) {
    s.extendsName == Some("Node") &&
    match s.kind
    case Behaviour => s.className == Some(s.name)
    case Value => s.className == Some(s.name) && ExportOnlyBody(s.contents)
    case Reference => s.className.None? && ExportOnlyBody(s.contents)
  }

  /** A script that keeps every rule. */
  predicate Conforms(s: Script) {
    UpperCamelCase(s.name) && '$' !in s.contents && StaticallyTyped(s.contents) && KindRules(s)
  }

  /** What `check_script_isolated` returns: the name check, then `$`, then the typing scan, then
      the rules of the script's kind; only the first failure is reported. */
  function ScriptVerdict(s: Script): (r: Outcome)
    ensures r.Pass? <==> Conforms(s)
    ensures r.Fail? ==> r.problem.Problem? && r.problem.file == s.fullName
    ensures !UpperCamelCase(s.name) ==> r == Fail(Problem(s.fullName, NotUpperCamelCase))
    ensures UpperCamelCase(s.name) && '$' in s.contents ==> r == Fail(Problem(s.fullName, ContainsDollar))
    ensures UpperCamelCase(s.name) && '$' !in s.contents && !StaticallyTyped(s.contents) ==>
      r == Fail(Problem(s.fullName, NotStaticallyTyped))
    ensures UpperCamelCase(s.name) && '$' !in s.contents && StaticallyTyped(s.contents) ==>
      r == match s.kind
           case Behaviour => CheckBehaviourScriptIsolated(s)
           case Value => CheckValueScriptIsolated(s)
           case Reference => CheckReferenceScriptIsolated(s)
  {
    var naming := CheckNameIsUpperCamelCase(s);
    if naming.Fail? then naming
    else if '$' in s.contents then Fail(Problem(s.fullName, ContainsDollar))
    else if !StaticallyTyped(s.contents) then Fail(Problem(s.fullName, NotStaticallyTyped))
    else match s.kind
      case Behaviour => CheckBehaviourScriptIsolated(s)
      case Reference => CheckReferenceScriptIsolated(s)
      case Value => CheckValueScriptIsolated(s)
  }

  /** `check_script_isolated`: scans every segment character by character, stopping a segment at
      its first `:` and failing at an `=` met before one. */
  method CheckScriptIsolated(s: Script) returns (r: Outcome)
    ensures r == ScriptVerdict(s)
  {
    r := CheckNameIsUpperCamelCase(s);
    if r.Fail? {
      return;
    }
    if '$' in s.contents {
      return Fail(Problem(s.fullName, ContainsDollar));
    }
    var sections := SplitOnAny(s.contents, VarPatterns);
    for i := 0 to |sections|
      invariant forall k :: 0 <= k < i ==> !AssignsBeforeType(sections[k])
    {
      var section := sections[i];
      var j := 0;
      while j < |section| && section[j] != ':'
        invariant 0 <= j <= |section|
        invariant forall m :: 0 <= m < j ==> section[m] != ':' && section[m] != '='
      {
        if section[j] == '=' {
          assert AssignsBeforeType(section);
          assert section in sections;
          return Fail(Problem(s.fullName, NotStaticallyTyped));
        }
        j := j + 1;
      }
    }
    assert StaticallyTyped(s.contents) by {
      forall segment | segment in sections ensures !AssignsBeforeType(segment) {
        var k :| 0 <= k < |sections| && sections[k] == segment;
      }
    }
    r := match s.kind
      case Behaviour => CheckBehaviourScriptIsolated(s)
      case Reference => CheckReferenceScriptIsolated(s)
      case Value => CheckValueScriptIsolated(s);
  }

  /** The master node types a scene may have. */
  const MasterNodeTypes: seq<string> := ["Node", "Node2D", "Node3D"]

  predicate ScriptInRange(scene: Scene, scripts: seq<Script>) {
    scene.script.Some? ==> scene.script.value < |scripts|
  }

  /** `check_scene`: no script on a scene with children; a master node of type Node, Node2D or
      Node3D; a Behaviour or Value script only on a plain Node; never a Reference script. */
  function CheckScene(scene: Scene, scripts: seq<Script>): (r: Outcome)
    requires ScriptInRange(scene, scripts)
    ensures r.Pass? <==>
      !(scene.hasChildren && scene.script.Some?) && scene.gdType in MasterNodeTypes &&
      (scene.script.Some? ==> scripts[scene.script.value].kind != Reference && scene.gdType == "Node")
    ensures r.Fail? ==> r.problem.Problem? && r.problem.file == scene.fullName
    ensures scene.hasChildren && scene.script.Some? ==> r == Fail(Problem(scene.fullName, HasChildrenAndScript))
    ensures !(scene.hasChildren && scene.script.Some?) && scene.gdType !in MasterNodeTypes ==>
      r == Fail(Problem(scene.fullName, MasterNotNodeType))
    ensures (!scene.hasChildren && scene.gdType in MasterNodeTypes &&
             scene.script.Some? && scripts[scene.script.value].kind == Reference) ==>
      r == Fail(Problem(scene.fullName, ReferenceScriptOnMaster))
    ensures (!scene.hasChildren && scene.gdType in MasterNodeTypes &&
             scene.script.Some? && scripts[scene.script.value].kind != Reference && scene.gdType != "Node") ==>
      r == Fail(Problem(scene.fullName, TypedScriptNotOnNode))
    ensures scene.script.None? ==> (r.Pass? <==> scene.gdType in MasterNodeTypes)
  {
    if scene.hasChildren && scene.script.Some? then Fail(Problem(scene.fullName, HasChildrenAndScript))
    else if scene.gdType !in MasterNodeTypes then Fail(Problem(scene.fullName, MasterNotNodeType))
    else match scene.script
      case None => Pass
      case Some(index) =>
        match scripts[index].kind
        case Reference => Fail(Problem(scene.fullName, ReferenceScriptOnMaster))
        case _ => if scene.gdType != "Node" then Fail(Problem(scene.fullName, TypedScriptNotOnNode)) else Pass
  }

  /** Every backslash replaced by a forward slash. */
  function ForwardSlashes(s: string): (r: string)
    ensures |r| == |s| && '\\' !in r
    ensures forall i :: 0 <= i < |s| && s[i] != '\\' ==> r[i] == s[i]
    ensures forall i :: 0 <= i < |s| && s[i] == '\\' ==> r[i] == '/'
  {
    if |s| == 0 then [] else [if s[0] == '\\' then '/' else s[0]] + ForwardSlashes(s[1..])
  }

  const ResourcePrefix: string := "res://"

  /** The resource path of a file from its path relative to the project root. */
  function ResPath(relativePath: string): (r: string)
    ensures StartsWith(r, ResourcePrefix) && |r| == |ResourcePrefix| + |relativePath|
    ensures '\\' !in r
    ensures forall c :: c != '\\' && c != '/' ==> (c in r[|ResourcePrefix|..] <==> c in relativePath)
    ensures forall i :: 0 <= i < |relativePath| && relativePath[i] != '\\' ==>
      r[|ResourcePrefix| + i] == relativePath[i]
    ensures forall i :: 0 <= i < |relativePath| && relativePath[i] == '\\' ==> r[|ResourcePrefix| + i] == '/'
  {
    var tail := ForwardSlashes(relativePath);
    assert forall c :: c != '\\' && c != '/' && c in relativePath ==> c in tail by {
      forall c | c != '\\' && c != '/' && c in relativePath ensures c in tail {
        var i :| 0 <= i < |relativePath| && relativePath[i] == c;
        assert tail[i] == c;
      }
    }
    ResourcePrefix + tail
  }

  /** A script file as found and read: its file name, its file stem, its path relative to the
      project root and its text. */
  datatype ScriptFile = ScriptFile(fullName: string, stem: string, relativePath: string, contents: string)

  datatype SceneFile = SceneFile(fullName: string, stem: string, contents: string)

  datatype Report = Report(generalProblems: seq<Problem>, scriptProblems: seq<Problem>, sceneProblems: seq<Problem>)

  /** A run either completes with its three problem lists or is aborted by a panic. */
  datatype RunOutcome = Completed(report: Report) | Aborted

  function BuildOf(f: ScriptFile): (r: ScriptBuild) {
    NewScript(f.fullName, f.stem, ResPath(f.relativePath), f.contents)
  }

  predicate AnyPanics(files: seq<ScriptFile>) {
    exists i :: 0 <= i < |files| && BuildOf(files[i]).Panicked?
  }

  /** The scripts built, in file order. */
  function BuiltScripts(files: seq<ScriptFile>): (r: seq<Script>) {
    if |files| == 0 then []
    else
      var last := BuildOf(files[|files| - 1]);
      BuiltScripts(files[..|files| - 1]) + if last.Built? then [last.script] else []
  }

  /** The construction failures of scripts, in file order. */
  function ScriptBuildProblems(files: seq<ScriptFile>): (r: seq<Problem>) {
    if |files| == 0 then []
    else
      var last := BuildOf(files[|files| - 1]);
      ScriptBuildProblems(files[..|files| - 1]) + if last.Failed? then [last.problem] else []
  }

  function SceneOf(f: SceneFile, scripts: seq<Script>): (r: Result<Scene>) {
    NewScene(f.fullName, f.stem, f.contents, scripts)
  }

  /** The scenes built, in file order; each refers to a script of the collection, if any. */
  function BuiltScenes(files: seq<SceneFile>, scripts: seq<Script>): (r: seq<Scene>)
    ensures forall k :: 0 <= k < |r| ==> ScriptInRange(r[k], scripts)
  {
    if |files| == 0 then []
    else
      var last := SceneOf(files[|files| - 1], scripts);
      BuiltScenes(files[..|files| - 1], scripts) + if last.Ok? then [last.value] else []
  }

  function SceneBuildProblems(files: seq<SceneFile>, scripts: seq<Script>): (r: seq<Problem>) {
    if |files| == 0 then []
    else
      var last := SceneOf(files[|files| - 1], scripts);
      SceneBuildProblems(files[..|files| - 1], scripts) + if last.Err? then [last.problem] else []
  }

  /** The failures of `check_script_isolated`, one per failing script, in order. */
  function ScriptProblems(scripts: seq<Script>): (r: seq<Problem>) {
    if |scripts| == 0 then []
    else
      var verdict := ScriptVerdict(scripts[|scripts| - 1]);
      ScriptProblems(scripts[..|scripts| - 1]) + if verdict.Fail? then [verdict.problem] else []
  }

  /** The failures of `check_scene`, one per failing scene, in order. */
  function SceneProblems(scenes: seq<Scene>, scripts: seq<Script>): (r: seq<Problem>)
    requires forall k :: 0 <= k < |scenes| ==> ScriptInRange(scenes[k], scripts)
  {
    if |scenes| == 0 then []
    else
      var verdict := CheckScene(scenes[|scenes| - 1], scripts);
      SceneProblems(scenes[..|scenes| - 1], scripts) + if verdict.Fail? then [verdict.problem] else []
  }

  /** What one run reports: a panic while building any script aborts it; otherwise every
      construction failure, scripts first, is a general problem, and each built script and each
      built scene is checked on its own. */
  function RunSpec(scriptFiles: seq<ScriptFile>, sceneFiles: seq<SceneFile>): (r: RunOutcome) {
    if AnyPanics(scriptFiles) then Aborted
    else
      var scripts := BuiltScripts(scriptFiles);
      var scenes := BuiltScenes(sceneFiles, scripts);
      Completed(Report(
        ScriptBuildProblems(scriptFiles) + SceneBuildProblems(sceneFiles, scripts),
        ScriptProblems(scripts),
        SceneProblems(scenes, scripts)))
  }

  /** Without a panic every script file yields either a built script or a general problem. */
  lemma {:induction false} ScriptFilesCounted(files: seq<ScriptFile>)
    requires !AnyPanics(files)
    ensures |BuiltScripts(files)| + |ScriptBuildProblems(files)| == |files|
    decreases |files|
  {
    if |files| > 0 {
      var n := |files| - 1;
      var earlier := files[..n];
      assert !AnyPanics(earlier) by {
        forall i | 0 <= i < n ensures !BuildOf(earlier[i]).Panicked? {
          assert earlier[i] == files[i];
        }
      }
      ScriptFilesCounted(earlier);
      var last := BuildOf(files[n]);
      assert !last.Panicked?;
      assert BuiltScripts(files) == BuiltScripts(earlier) + if last.Built? then [last.script] else [];
      assert ScriptBuildProblems(files) == ScriptBuildProblems(earlier) + if last.Failed? then [last.problem] else [];
    }
  }

  /** Every built script is what some script file built into. */
  lemma {:induction false} BuiltScriptsFromFiles(files: seq<ScriptFile>)
    ensures forall s :: s in BuiltScripts(files) ==> exists i :: 0 <= i < |files| && BuildOf(files[i]) == Built(s)
    decreases |files|
  {
    if |files| > 0 {
      var n := |files| - 1;
      var earlier := files[..n];
      BuiltScriptsFromFiles(earlier);
      var last := BuildOf(files[n]);
      assert BuiltScripts(files) == BuiltScripts(earlier) + if last.Built? then [last.script] else [];
      forall s | s in BuiltScripts(files) ensures exists i :: 0 <= i < |files| && BuildOf(files[i]) == Built(s) {
        if s in BuiltScripts(earlier) {
          var i :| 0 <= i < n && BuildOf(earlier[i]) == Built(s);
          assert files[i] == earlier[i];
        } else {
          assert last == Built(s);
        }
      }
    }
  }

  /** Every script construction failure is reported. */
  lemma {:induction false} ScriptFailuresListed(files: seq<ScriptFile>)
    ensures forall i :: 0 <= i < |files| && BuildOf(files[i]).Failed? ==> BuildOf(files[i]).problem in ScriptBuildProblems(files)
    decreases |files|
  {
    if |files| > 0 {
      var n := |files| - 1;
      var earlier := files[..n];
      ScriptFailuresListed(earlier);
      var last := BuildOf(files[n]);
      assert ScriptBuildProblems(files) == ScriptBuildProblems(earlier) + if last.Failed? then [last.problem] else [];
      forall i | 0 <= i < |files| && BuildOf(files[i]).Failed?
        ensures BuildOf(files[i]).problem in ScriptBuildProblems(files)
      {
        if i < n {
          assert files[i] == earlier[i];
        }
      }
    }
  }

  /** Without a panic every script file yields either a built script or a general problem; every
      built script comes from a file and every failure is reported. */
  lemma ScriptFilesAccountedFor(files: seq<ScriptFile>)
    requires !AnyPanics(files)
    ensures |BuiltScripts(files)| + |ScriptBuildProblems(files)| == |files|
    ensures forall s :: s in BuiltScripts(files) ==> exists i :: 0 <= i < |files| && BuildOf(files[i]) == Built(s)
    ensures forall i :: 0 <= i < |files| && BuildOf(files[i]).Failed? ==> BuildOf(files[i]).problem in ScriptBuildProblems(files)
  {
    ScriptFilesCounted(files);
    BuiltScriptsFromFiles(files);
    ScriptFailuresListed(files);
  }

  /** Every scene file yields either a built scene or a general problem. */
  lemma {:induction false} SceneFilesCounted(files: seq<SceneFile>, scripts: seq<Script>)
    ensures |BuiltScenes(files, scripts)| + |SceneBuildProblems(files, scripts)| == |files|
    decreases |files|
  {
    if |files| > 0 {
      SceneFilesCounted(files[..|files| - 1], scripts);
    }
  }

  /** Every built scene is what some scene file built into. */
  lemma {:induction false} BuiltScenesFromFiles(files: seq<SceneFile>, scripts: seq<Script>)
    ensures forall sc :: sc in BuiltScenes(files, scripts) ==>
      exists i :: 0 <= i < |files| && SceneOf(files[i], scripts) == Ok(sc)
    decreases |files|
  {
    if |files| > 0 {
      var n := |files| - 1;
      var earlier := files[..n];
      BuiltScenesFromFiles(earlier, scripts);
      var last := SceneOf(files[n], scripts);
      assert BuiltScenes(files, scripts) == BuiltScenes(earlier, scripts) + if last.Ok? then [last.value] else [];
      forall sc | sc in BuiltScenes(files, scripts)
        ensures exists i :: 0 <= i < |files| && SceneOf(files[i], scripts) == Ok(sc)
      {
        if sc in BuiltScenes(earlier, scripts) {
          var i :| 0 <= i < n && SceneOf(earlier[i], scripts) == Ok(sc);
          assert files[i] == earlier[i];
        } else {
          assert last == Ok(sc);
        }
      }
    }
  }

  /** Every scene construction failure is reported. */
  lemma {:induction false} SceneFailuresReported(files: seq<SceneFile>, scripts: seq<Script>)
    ensures forall i :: 0 <= i < |files| && SceneOf(files[i], scripts).Err? ==>
      SceneOf(files[i], scripts).problem in SceneBuildProblems(files, scripts)
    decreases |files|
  {
    if |files| > 0 {
      var n := |files| - 1;
      var earlier := files[..n];
      SceneFailuresReported(earlier, scripts);
      var last := SceneOf(files[n], scripts);
      assert SceneBuildProblems(files, scripts) == SceneBuildProblems(earlier, scripts) + if last.Err? then [last.problem] else [];
      forall i | 0 <= i < |files| && SceneOf(files[i], scripts).Err?
        ensures SceneOf(files[i], scripts).problem in SceneBuildProblems(files, scripts)
      {
        if i < n {
          assert files[i] == earlier[i];
        }
      }
    }
  }

  /** At most one script problem per script, each the verdict of some script; none exactly when
      every script conforms. */
  lemma {:induction false} ScriptProblemsPerScript(scripts: seq<Script>)
    ensures |ScriptProblems(scripts)| <= |scripts|
    ensures forall p :: p in ScriptProblems(scripts) ==>
      exists k :: 0 <= k < |scripts| && ScriptVerdict(scripts[k]) == Fail(p)
    ensures ScriptProblems(scripts) == [] <==> forall k :: 0 <= k < |scripts| ==> Conforms(scripts[k])
    decreases |scripts|
  {
    if |scripts| > 0 {
      var n := |scripts| - 1;
      var earlier := scripts[..n];
      ScriptProblemsPerScript(earlier);
      forall p | p in ScriptProblems(scripts)
        ensures exists k :: 0 <= k < |scripts| && ScriptVerdict(scripts[k]) == Fail(p)
      {
        if p in ScriptProblems(earlier) {
          var k :| 0 <= k < n && ScriptVerdict(earlier[k]) == Fail(p);
          assert scripts[k] == earlier[k];
        } else {
          assert ScriptVerdict(scripts[n]) == Fail(p);
        }
      }
      if forall k :: 0 <= k < |scripts| ==> Conforms(scripts[k]) {
        assert forall k :: 0 <= k < n ==> Conforms(earlier[k]) by {
          forall k | 0 <= k < n ensures Conforms(earlier[k]) {
            assert earlier[k] == scripts[k];
          }
        }
      } else {
        var k :| 0 <= k < |scripts| && !Conforms(scripts[k]);
        if k < n {
          assert earlier[k] == scripts[k];
        }
      }
    }
  }

  /** At most one scene problem per scene, each the verdict of some scene; none exactly when
      every scene passes. */
  lemma {:induction false} SceneProblemsPerScene(scenes: seq<Scene>, scripts: seq<Script>)
    requires forall k :: 0 <= k < |scenes| ==> ScriptInRange(scenes[k], scripts)
    ensures |SceneProblems(scenes, scripts)| <= |scenes|
    ensures forall p :: p in SceneProblems(scenes, scripts) ==>
      exists k :: 0 <= k < |scenes| && CheckScene(scenes[k], scripts) == Fail(p)
    ensures SceneProblems(scenes, scripts) == [] <==>
      forall k :: 0 <= k < |scenes| ==> CheckScene(scenes[k], scripts).Pass?
    decreases |scenes|
  {
    if |scenes| > 0 {
      var n := |scenes| - 1;
      var earlier := scenes[..n];
      assert forall k :: 0 <= k < n ==> earlier[k] == scenes[k];
      SceneProblemsPerScene(earlier, scripts);
      forall p | p in SceneProblems(scenes, scripts)
        ensures exists k :: 0 <= k < |scenes| && CheckScene(scenes[k], scripts) == Fail(p)
      {
        if p in SceneProblems(earlier, scripts) {
          var k :| 0 <= k < n && CheckScene(earlier[k], scripts) == Fail(p);
        } else {
          assert CheckScene(scenes[n], scripts) == Fail(p);
        }
      }
      if !forall k :: 0 <= k < |scenes| ==> CheckScene(scenes[k], scripts).Pass? {
        var k :| 0 <= k < |scenes| && !CheckScene(scenes[k], scripts).Pass?;
      }
    }
  }

  /** The positions of the failing scripts, in increasing order. */
  function FailingScripts(scripts: seq<Script>): (idx: seq<nat>)
    ensures forall m :: 0 <= m < |idx| ==> idx[m] < |scripts| && ScriptVerdict(scripts[idx[m]]).Fail?
    ensures forall m, m' :: 0 <= m < m' < |idx| ==> idx[m] < idx[m']
    ensures forall k :: 0 <= k < |scripts| && ScriptVerdict(scripts[k]).Fail? ==> k in idx
  {
    if |scripts| == 0 then []
    else
      var n := |scripts| - 1;
      assert forall k :: 0 <= k < n ==> scripts[..n][k] == scripts[k];
      FailingScripts(scripts[..n]) + if ScriptVerdict(scripts[n]).Fail? then [n] else []
  }

  /** The script problems are exactly the failing verdicts: one per failing script, in build
      order, none skipped. */
  lemma {:induction false} ScriptProblemsAreFailingVerdicts(scripts: seq<Script>)
    ensures |ScriptProblems(scripts)| == |FailingScripts(scripts)|
    ensures forall m :: 0 <= m < |FailingScripts(scripts)| ==>
      ScriptVerdict(scripts[FailingScripts(scripts)[m]]) == Fail(ScriptProblems(scripts)[m])
    decreases |scripts|
  {
    if |scripts| > 0 {
      var n := |scripts| - 1;
      var earlier := scripts[..n];
      ScriptProblemsAreFailingVerdicts(earlier);
      var idx, before := FailingScripts(earlier), ScriptProblems(earlier);
      forall m | 0 <= m < |FailingScripts(scripts)|
        ensures ScriptVerdict(scripts[FailingScripts(scripts)[m]]) == Fail(ScriptProblems(scripts)[m])
      {
        if m < |idx| {
          assert FailingScripts(scripts)[m] == idx[m];
          assert ScriptProblems(scripts)[m] == before[m];
          assert scripts[idx[m]] == earlier[idx[m]];
        }
      }
    }
  }

  /** The positions of the failing scenes, in increasing order. */
  function FailingScenes(scenes: seq<Scene>, scripts: seq<Script>): (idx: seq<nat>)
    requires forall k :: 0 <= k < |scenes| ==> ScriptInRange(scenes[k], scripts)
    ensures forall m :: 0 <= m < |idx| ==> idx[m] < |scenes| && CheckScene(scenes[idx[m]], scripts).Fail?
    ensures forall m, m' :: 0 <= m < m' < |idx| ==> idx[m] < idx[m']
    ensures forall k :: 0 <= k < |scenes| && CheckScene(scenes[k], scripts).Fail? ==> k in idx
  {
    if |scenes| == 0 then []
    else
      var n := |scenes| - 1;
      assert forall k :: 0 <= k < n ==> scenes[..n][k] == scenes[k];
      FailingScenes(scenes[..n], scripts) + if CheckScene(scenes[n], scripts).Fail? then [n] else []
  }

  /** One step of the scene filter: the last scene adds its failure, if any, at the end. */
  lemma SceneFilterStep(scenes: seq<Scene>, scripts: seq<Script>)
    requires |scenes| > 0
    requires forall k :: 0 <= k < |scenes| ==> ScriptInRange(scenes[k], scripts)
    ensures var n := |scenes| - 1;
      var v := CheckScene(scenes[n], scripts);
      FailingScenes(scenes, scripts) == FailingScenes(scenes[..n], scripts) + (if v.Fail? then [n] else []) &&
      SceneProblems(scenes, scripts) == SceneProblems(scenes[..n], scripts) + (if v.Fail? then [v.problem] else [])
  {
  }

  /** The scene problems are exactly the failing verdicts: one per failing scene, in build order,
      none skipped. */
  lemma {:induction false} SceneProblemsAreFailingVerdicts(scenes: seq<Scene>, scripts: seq<Script>)
    requires forall k :: 0 <= k < |scenes| ==> ScriptInRange(scenes[k], scripts)
    ensures |SceneProblems(scenes, scripts)| == |FailingScenes(scenes, scripts)|
    ensures forall m :: 0 <= m < |FailingScenes(scenes, scripts)| ==>
      CheckScene(scenes[FailingScenes(scenes, scripts)[m]], scripts) == Fail(SceneProblems(scenes, scripts)[m])
    decreases |scenes|
  {
    if |scenes| > 0 {
      var n := |scenes| - 1;
      var earlier := scenes[..n];
      assert forall k :: 0 <= k < n ==> earlier[k] == scenes[k];
      SceneProblemsAreFailingVerdicts(earlier, scripts);
      SceneFilterStep(scenes, scripts);
      var idx, before := FailingScenes(earlier, scripts), SceneProblems(earlier, scripts);
      var all, problems := FailingScenes(scenes, scripts), SceneProblems(scenes, scripts);
      var v := CheckScene(scenes[n], scripts);
      assert all == idx + (if v.Fail? then [n] else []);
      assert problems == before + (if v.Fail? then [v.problem] else []);
      forall m | 0 <= m < |all|
        ensures CheckScene(scenes[all[m]], scripts) == Fail(problems[m])
      {
        if m < |idx| {
          assert all[m] == idx[m] && problems[m] == before[m];
          assert CheckScene(earlier[idx[m]], scripts) == Fail(before[m]);
        } else {
          assert all[m] == n && problems[m] == v.problem;
        }
      }
    }
  }

  /** Every failing script's verdict is in the script problems. */
  lemma ScriptFailuresAllReported(scripts: seq<Script>)
    ensures forall k :: 0 <= k < |scripts| && ScriptVerdict(scripts[k]).Fail? ==>
      ScriptVerdict(scripts[k]).problem in ScriptProblems(scripts)
  {
    ScriptProblemsAreFailingVerdicts(scripts);
    var idx := FailingScripts(scripts);
    forall k | 0 <= k < |scripts| && ScriptVerdict(scripts[k]).Fail?
      ensures ScriptVerdict(scripts[k]).problem in ScriptProblems(scripts)
    {
      var m :| 0 <= m < |idx| && idx[m] == k;
      assert ScriptProblems(scripts)[m] == ScriptVerdict(scripts[k]).problem;
    }
  }

  /** Every failing scene's verdict is in the scene problems. */
  lemma SceneFailuresAllReported(scenes: seq<Scene>, scripts: seq<Script>)
    requires forall k :: 0 <= k < |scenes| ==> ScriptInRange(scenes[k], scripts)
    ensures forall k :: 0 <= k < |scenes| && CheckScene(scenes[k], scripts).Fail? ==>
      CheckScene(scenes[k], scripts).problem in SceneProblems(scenes, scripts)
  {
    SceneProblemsAreFailingVerdicts(scenes, scripts);
    var idx := FailingScenes(scenes, scripts);
    forall k | 0 <= k < |scenes| && CheckScene(scenes[k], scripts).Fail?
      ensures CheckScene(scenes[k], scripts).problem in SceneProblems(scenes, scripts)
    {
      var m :| 0 <= m < |idx| && idx[m] == k;
      assert SceneProblems(scenes, scripts)[m] == CheckScene(scenes[k], scripts).problem;
    }
  }

  /** A run without a panic completes; its general problems hold one entry per file that did not
      build, and its rule problems one entry per failing built script and per failing built scene. */
  lemma RunCollectsEveryProblem(scriptFiles: seq<ScriptFile>, sceneFiles: seq<SceneFile>)
    ensures RunSpec(scriptFiles, sceneFiles).Aborted? <==> AnyPanics(scriptFiles)
    ensures RunSpec(scriptFiles, sceneFiles).Completed? ==>
      var report := RunSpec(scriptFiles, sceneFiles).report;
      var scripts := BuiltScripts(scriptFiles);
      var scenes := BuiltScenes(sceneFiles, scripts);
      |report.generalProblems| == (|scriptFiles| - |scripts|) + (|sceneFiles| - |scenes|) &&
      |report.scriptProblems| == |FailingScripts(scripts)| <= |scripts| &&
      |report.sceneProblems| == |FailingScenes(scenes, scripts)| <= |scenes|
  {
    if !AnyPanics(scriptFiles) {
      var scripts := BuiltScripts(scriptFiles);
      ScriptFilesAccountedFor(scriptFiles);
      SceneFilesCounted(sceneFiles, scripts);
      ScriptProblemsPerScript(scripts);
      ScriptProblemsAreFailingVerdicts(scripts);
      SceneProblemsPerScene(BuiltScenes(sceneFiles, scripts), scripts);
      SceneProblemsAreFailingVerdicts(BuiltScenes(sceneFiles, scripts), scripts);
    }
  }

  /** Every built script carries the resource path of its file. */
  lemma BuiltScriptPaths(files: seq<ScriptFile>)
    requires !AnyPanics(files)
    ensures forall s :: s in BuiltScripts(files) ==>
      exists i :: 0 <= i < |files| && s.gdPath == ResPath(files[i].relativePath) && s.fullName == files[i].fullName
  {
    ScriptFilesAccountedFor(files);
    forall s | s in BuiltScripts(files)
      ensures exists i :: 0 <= i < |files| && s.gdPath == ResPath(files[i].relativePath) && s.fullName == files[i].fullName
    {
      var i :| 0 <= i < |files| && BuildOf(files[i]) == Built(s);
      NewScriptBuilt(files[i].fullName, files[i].stem, ResPath(files[i].relativePath), files[i].contents);
    }
  }

  /** A resource path holds a quote only if the relative path does. */
  lemma QuoteFreeResPath(relativePath: string)
    requires '"' !in relativePath
    ensures '"' !in ResPath(relativePath)
  {
    var r := ResPath(relativePath);
    assert r == r[..|ResourcePrefix|] + r[|ResourcePrefix|..];
    assert r[..|ResourcePrefix|] == ResourcePrefix;
  }

  lemma BuiltScriptsQuoteFree(files: seq<ScriptFile>)
    requires !AnyPanics(files)
    requires forall i :: 0 <= i < |files| ==> '"' !in files[i].relativePath
    ensures forall k :: 0 <= k < |BuiltScripts(files)| ==> '"' !in BuiltScripts(files)[k].gdPath
  {
    var scripts := BuiltScripts(files);
    BuiltScriptPaths(files);
    forall k | 0 <= k < |scripts| ensures '"' !in scripts[k].gdPath {
      assert scripts[k] in scripts;
      var i :| 0 <= i < |files| && scripts[k].gdPath == ResPath(files[i].relativePath) && scripts[k].fullName == files[i].fullName;
      QuoteFreeResPath(files[i].relativePath);
    }
  }

  /** When no relative path holds a quote and every script declaration closes its path with one,
      no scene of the run is linked to a script, so the script-related scene rules never fire. */
  lemma QuotedDeclarationsNeverLinkInRun(scriptFiles: seq<ScriptFile>, sceneFiles: seq<SceneFile>)
    requires !AnyPanics(scriptFiles)
    requires forall i :: 0 <= i < |scriptFiles| ==> '"' !in scriptFiles[i].relativePath
    requires forall i, l :: 0 <= i < |sceneFiles| && l in Lines(sceneFiles[i].contents) && DeclaresScript(l) ==>
      '"' in l[|ScriptDeclarationPrefix|..]
    ensures forall sc :: sc in BuiltScenes(sceneFiles, BuiltScripts(scriptFiles)) ==> sc.script.None?
  {
    var scripts := BuiltScripts(scriptFiles);
    BuiltScriptsQuoteFree(scriptFiles);
    BuiltScenesFromFiles(sceneFiles, scripts);
    forall sc | sc in BuiltScenes(sceneFiles, scripts) ensures sc.script.None? {
      var i :| 0 <= i < |sceneFiles| && SceneOf(sceneFiles[i], scripts) == Ok(sc);
      QuotedDeclarationNeverLinks(sceneFiles[i].fullName, sceneFiles[i].stem, sceneFiles[i].contents, scripts);
    }
  }

  predicate NoPanicBefore(files: seq<ScriptFile>, i: nat)
    requires i <= |files|
  {
    forall j :: 0 <= j < i ==> !BuildOf(files[j]).Panicked?
  }

  lemma BuildStep(files: seq<ScriptFile>, i: nat)
    requires i < |files|
    ensures BuiltScripts(files[..i + 1]) ==
      BuiltScripts(files[..i]) + if BuildOf(files[i]).Built? then [BuildOf(files[i]).script] else []
    ensures ScriptBuildProblems(files[..i + 1]) ==
      ScriptBuildProblems(files[..i]) + if BuildOf(files[i]).Failed? then [BuildOf(files[i]).problem] else []
  {
    assert files[..i + 1][..i] == files[..i];
  }

  /** The first loop of `main`: builds every script file in order, collecting the construction
      failures; a panic ends the run. */
  method BuildScripts(files: seq<ScriptFile>) returns (scripts: seq<Script>, problems: seq<Problem>, panicked: bool)
    ensures panicked <==> AnyPanics(files)
    ensures !panicked ==> scripts == BuiltScripts(files) && problems == ScriptBuildProblems(files)
  {
    scripts, problems, panicked := [], [], false;
    for i := 0 to |files|
      invariant NoPanicBefore(files, i)
      invariant scripts == BuiltScripts(files[..i])
      invariant problems == ScriptBuildProblems(files[..i])
    {
      var f := files[i];
      var built := BuildScript(f.fullName, f.stem, ResPath(f.relativePath), f.contents);
      BuildStep(files, i);
      match built {
        case Built(s) =>
          scripts := scripts + [s];
        case Failed(p) =>
          problems := problems + [p];
        case Panicked =>
          assert BuildOf(files[i]).Panicked?;
          panicked := true;
          return;
      }
    }
    assert files[..|files|] == files;
  }

  /** The second loop of `main`: checks every built script on its own. */
  method CheckScripts(scripts: seq<Script>) returns (problems: seq<Problem>)
    ensures problems == ScriptProblems(scripts)
  {
    problems := [];
    for k := 0 to |scripts|
      invariant problems == ScriptProblems(scripts[..k])
    {
      assert scripts[..k + 1][..k] == scripts[..k];
      var verdict := CheckScriptIsolated(scripts[k]);
      if verdict.Fail? {
        problems := problems + [verdict.problem];
      }
    }
    assert scripts[..|scripts|] == scripts;
  }

  /** The third loop of `main`: builds every scene file against the built scripts. */
  method BuildScenes(files: seq<SceneFile>, scripts: seq<Script>) returns (scenes: seq<Scene>, problems: seq<Problem>)
    ensures scenes == BuiltScenes(files, scripts)
    ensures problems == SceneBuildProblems(files, scripts)
  {
    scenes, problems := [], [];
    for k := 0 to |files|
      invariant scenes == BuiltScenes(files[..k], scripts)
      invariant problems == SceneBuildProblems(files[..k], scripts)
    {
      var f := files[k];
      assert files[..k + 1][..k] == files[..k];
      var built := BuildScene(f.fullName, f.stem, f.contents, scripts);
      match built {
        case Ok(scene) =>
          scenes := scenes + [scene];
        case Err(p) =>
          problems := problems + [p];
      }
    }
    assert files[..|files|] == files;
  }

  /** The fourth loop of `main`: checks every built scene on its own. */
  method CheckScenes(scenes: seq<Scene>, scripts: seq<Script>) returns (problems: seq<Problem>)
    requires forall k :: 0 <= k < |scenes| ==> ScriptInRange(scenes[k], scripts)
    ensures problems == SceneProblems(scenes, scripts)
  {
    problems := [];
    for k := 0 to |scenes|
      invariant problems == SceneProblems(scenes[..k], scripts)
    {
      assert scenes[..k + 1][..k] == scenes[..k];
      var verdict := CheckScene(scenes[k], scripts);
      if verdict.Fail? {
        problems := problems + [verdict.problem];
      }
    }
    assert scenes[..|scenes|] == scenes;
  }

  /** The body of `main` after discovery: builds and checks the scripts, then builds and checks
      the scenes, and collects the problems. */
  method Run(scriptFiles: seq<ScriptFile>, sceneFiles: seq<SceneFile>) returns (out: RunOutcome)
    ensures out == RunSpec(scriptFiles, sceneFiles)
  {
    var scripts, scriptBuildProblems, panicked := BuildScripts(scriptFiles);
    if panicked {
      return Aborted;
    }
    var scriptProblems := CheckScripts(scripts);
    var scenes, sceneBuildProblems := BuildScenes(sceneFiles, scripts);
    var sceneProblems := CheckScenes(scenes, scripts);
    return Completed(Report(scriptBuildProblems + sceneBuildProblems, scriptProblems, sceneProblems));
  }
}
