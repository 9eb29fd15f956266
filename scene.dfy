/** Scenes: the construction of a Scene from its file name, stem and contents against the
    complete collection of built Scripts. */
module Scenes {
  import opened Text
  import opened Problems
  import opened Scripts

  /** `script` is an index into the script collection the scene was built against. */
  datatype Scene = Scene(
    fullName: string,
    name: string,
    contents: string,
    script: Option<nat>,
    hasChildren: bool,
    gdType: string)

  const ScriptDeclarationPrefix: string := "[ext_resource type=\"Script\" path=\""
  const NodePrefix: string := "[node "
  const TypePattern: string := "type=\""

  /** The piece count the source passes to `splitn` when it cuts the value of a script
      declaration at its closing quote. */
  const QuoteSplitLimit: nat := 1

  predicate DeclaresScript(line: string) {
    StartsWith(line, ScriptDeclarationPrefix)
  }

  /** The declared script path with the `splitn` count as a parameter: the first line that starts
      (untrimmed) with the declaration prefix gives the first piece of the rest of that line; an
      error only when the split yields no piece at all. */
  function DeclaredScriptPathWith(fullName: string, lines: seq<string>, limit: nat): (r: Result<Option<string>>)
    decreases |lines|
  {
    if |lines| == 0 then Ok(None)
    else match StripPrefix(lines[0], ScriptDeclarationPrefix)
      case None => DeclaredScriptPathWith(fullName, lines[1..], limit)
      case Some(rest) =>
        var pieces := SplitN(rest, limit, "\"");
        if |pieces| == 0 then Err(Problem(fullName, NoEndingQuoteOnScriptPath)) else Ok(Some(pieces[0]))
  }

  function DeclaredScriptPath(fullName: string, lines: seq<string>): (r: Result<Option<string>>) {
    DeclaredScriptPathWith(fullName, lines, QuoteSplitLimit)
  }

  /** With the source's one-piece split the missing-quote error cannot happen: the declared path
      is the entire rest of the first declaring line, or nothing when no line declares a script. */
  lemma {:induction false} DeclaredScriptPathIsRestOfLine(fullName: string, lines: seq<string>)
    ensures DeclaredScriptPath(fullName, lines).Ok?
    ensures DeclaredScriptPath(fullName, lines).value.None? <==> forall l :: l in lines ==> !DeclaresScript(l)
    ensures DeclaredScriptPath(fullName, lines).value.Some? ==>
      exists i :: 0 <= i < |lines| && DeclaresScript(lines[i]) && (forall j :: 0 <= j < i ==> !DeclaresScript(lines[j])) &&
        DeclaredScriptPath(fullName, lines).value.value == lines[i][|ScriptDeclarationPrefix|..]
    decreases |lines|
  {
    if |lines| > 0 && !DeclaresScript(lines[0]) {
      var tail := lines[1..];
      DeclaredScriptPathIsRestOfLine(fullName, tail);
      assert forall l :: l in lines ==> l == lines[0] || l in tail;
      assert forall l :: l in tail ==> l in lines;
      if DeclaredScriptPath(fullName, tail).value.Some? {
        var i :| 0 <= i < |tail| && DeclaresScript(tail[i]) && (forall j :: 0 <= j < i ==> !DeclaresScript(tail[j])) &&
          DeclaredScriptPath(fullName, tail).value.value == tail[i][|ScriptDeclarationPrefix|..];
        assert lines[i + 1] == tail[i];
      }
    }
  }

  /** On a declaration whose value is followed by a closing quote, the source's one-piece split
      keeps the quote and everything after it in the path; the two-piece split the code evidently
      meant yields the value alone. */
  lemma {:induction false} DeclaredPathKeepsClosingQuote(fullName: string, value: string, tail: string)
    requires '"' !in value
    ensures DeclaredScriptPath(fullName, [ScriptDeclarationPrefix + value + "\"" + tail]) ==
            Ok(Some(value + "\"" + tail))
    ensures DeclaredScriptPathWith(fullName, [ScriptDeclarationPrefix + value + "\"" + tail], 2) ==
            Ok(Some(value))
  {
    var rest := value + "\"" + tail;
    var line := ScriptDeclarationPrefix + rest;
    assert line == ScriptDeclarationPrefix + value + "\"" + tail;
    assert StripPrefix(line, ScriptDeclarationPrefix) == Some(rest);
    FindChar(rest, '"');
    assert rest[..|value|] == value;
    assert rest[|value|] == '"';
    assert Find(rest, "\"") == Some(|value|);
    assert SplitN(rest, 2, "\"") == [value, tail];
  }

  /** `FindScript` from index `k` on. */
  function FindScriptFrom(scripts: seq<Script>, path: string, k: nat): (r: Option<nat>)
    requires k <= |scripts|
    ensures r.Some? ==> k <= r.value < |scripts| && scripts[r.value].gdPath == path
    ensures r.Some? ==> forall j :: k <= j < r.value ==> scripts[j].gdPath != path
    ensures r.None? ==> forall j :: k <= j < |scripts| ==> scripts[j].gdPath != path
    decreases |scripts| - k
  {
    if k == |scripts| then None
    else if scripts[k].gdPath == path then Some(k)
    else FindScriptFrom(scripts, path, k + 1)
  }

  /** The first script, in collection order, whose resource path is `path`. */
  function FindScript(scripts: seq<Script>, path: string): (r: Option<nat>)
    ensures r.Some? ==> r.value < |scripts| && scripts[r.value].gdPath == path
    ensures r.Some? ==> forall j :: 0 <= j < r.value ==> scripts[j].gdPath != path
    ensures r.None? <==> forall j :: 0 <= j < |scripts| ==> scripts[j].gdPath != path
  {
    FindScriptFrom(scripts, path, 0)
  }

  predicate IsNodeLine(line: string) {
    StartsWith(line, NodePrefix)
  }

  /** The number of node entries. */
  function NodeCount(lines: seq<string>): (r: nat) {
    if |lines| == 0 then 0 else (if IsNodeLine(lines[0]) then 1 else 0) + NodeCount(lines[1..])
  }

  /** The first node entry: the master node. */
  function MasterLine(lines: seq<string>): (r: Option<string>) {
    if |lines| == 0 then None
    else if IsNodeLine(lines[0]) then Some(lines[0])
    else MasterLine(lines[1..])
  }

  /** The type of the master node: the text between the first `type="` of its line and the next
      quote; it never holds a quote. */
  function MasterType(fullName: string, line: string): (r: Result<string>)
    ensures r.Err? ==> r.problem == Problem(fullName,
      if !Contains(line, TypePattern) then NoTypeOnMasterNode else NoEndOfTypeOnMasterNode)
    ensures r.Ok? ==> Contains(line, TypePattern) && '"' !in r.value
    ensures r.Ok? ==>
      var start := Find(line, TypePattern).value + |TypePattern|;
      StartsWith(line[start..], r.value + "\"")
  {
    match Find(line, TypePattern)
    case None => Err(Problem(fullName, NoTypeOnMasterNode))
    case Some(k) =>
      var rest := line[k + |TypePattern|..];
      FindChar(rest, '"');
      match Find(rest, "\"")
      case None => Err(Problem(fullName, NoEndOfTypeOnMasterNode))
      case Some(e) =>
        assert rest[..e + 1] == rest[..e] + "\"";
        Ok(rest[..e])
  }

  datatype NodeInfo = NodeInfo(count: nat, masterType: string)

  /** What the node scan computes: the node count and the master node's type, or why the master
      node has no type; only the first node entry can fail the scan. */
  function NodeSummary(fullName: string, lines: seq<string>): (r: Result<NodeInfo>) {
    match MasterLine(lines)
    case None => Err(Problem(fullName, NoMasterNode))
    case Some(master) =>
      match MasterType(fullName, master)
      case Err(p) => Err(p)
      case Ok(t) => Ok(NodeInfo(NodeCount(lines), t))
  }

  lemma {:induction false} NodeCountAppend(a: seq<string>, b: seq<string>)
    ensures NodeCount(a + b) == NodeCount(a) + NodeCount(b)
    decreases |a|
  {
    if |a| > 0 {
      assert (a + b)[1..] == a[1..] + b;
      NodeCountAppend(a[1..], b);
    } else {
      assert a + b == b;
    }
  }

  lemma {:induction false} MasterLineAppend(a: seq<string>, b: seq<string>)
    ensures MasterLine(a + b) == OrElse(MasterLine(a), MasterLine(b))
    decreases |a|
  {
    if |a| > 0 {
      assert (a + b)[0] == a[0];
      assert (a + b)[1..] == a[1..] + b;
      MasterLineAppend(a[1..], b);
    } else {
      assert a + b == b;
    }
  }

  lemma {:induction false} NoNodesNoMaster(lines: seq<string>)
    ensures NodeCount(lines) == 0 <==> MasterLine(lines).None?
    decreases |lines|
  {
    if |lines| > 0 {
      NoNodesNoMaster(lines[1..]);
    }
  }

  /** Node entries after the first are only counted: they change neither the outcome of the scan
      nor the master type. */
  lemma LaterNodeLinesOnlyCounted(fullName: string, a: seq<string>, b: seq<string>)
    requires MasterLine(a).Some?
    ensures NodeSummary(fullName, a + b) ==
      match NodeSummary(fullName, a)
      case Ok(info) => Ok(NodeInfo(info.count + NodeCount(b), info.masterType))
      case Err(p) => Err(p)
  {
    NodeCountAppend(a, b);
    MasterLineAppend(a, b);
  }

  /** One step of the scan: the prefix grows by the line at `i`. */
  lemma ScanStep(lines: seq<string>, i: nat)
    requires i < |lines|
    ensures NodeCount(lines[..i + 1]) == NodeCount(lines[..i]) + (if IsNodeLine(lines[i]) then 1 else 0)
    ensures MasterLine(lines[..i + 1]) ==
      OrElse(MasterLine(lines[..i]), if IsNodeLine(lines[i]) then Some(lines[i]) else None)
  {
    assert lines[..i + 1] == lines[..i] + [lines[i]];
    NodeCountAppend(lines[..i], [lines[i]]);
    MasterLineAppend(lines[..i], [lines[i]]);
    assert [lines[i]][1..] == [];
  }

  /** The node loop of the constructor: counts `[node ` lines and reads the type of the first. */
  method ScanNodes(fullName: string, lines: seq<string>) returns (r: Result<NodeInfo>)
    ensures r == NodeSummary(fullName, lines)
  {
    var numNodes: nat := 0;
    var gdType: Option<string> := None;
    for i := 0 to |lines|
      invariant numNodes == NodeCount(lines[..i])
      invariant gdType.None? <==> MasterLine(lines[..i]).None?
      invariant gdType.Some? ==> MasterType(fullName, MasterLine(lines[..i]).value) == Ok(gdType.value)
    {
      var line := lines[i];
      ScanStep(lines, i);
      NoNodesNoMaster(lines[..i]);
      if StartsWith(line, NodePrefix) {
        if numNodes == 0 {
          match MasterType(fullName, line) {
            case Err(p) =>
              assert lines == lines[..i + 1] + lines[i + 1..];
              MasterLineAppend(lines[..i + 1], lines[i + 1..]);
              return Err(p);
            case Ok(t) =>
              gdType := Some(t);
          }
        }
        numNodes := numNodes + 1;
      }
    }
    assert lines[..|lines|] == lines;
    if gdType.None? {
      return Err(Problem(fullName, NoMasterNode));
    }
    return Ok(NodeInfo(numNodes, gdType.value));
  }

  /** `Scene::new` on the file name, the file stem, the contents and the script collection. */
  function NewScene(fullName: string, stem: string, contents: string, scripts: seq<Script>): (r: Result<Scene>)
    ensures r.Ok? && r.value.script.Some? ==> r.value.script.value < |scripts|
  {
    var lines := Lines(contents);
    match DeclaredScriptPath(fullName, lines)
    case Err(p) => Err(p)
    case Ok(declared) =>
      var script := if declared.Some? then FindScript(scripts, declared.value) else None;
      match NodeSummary(fullName, lines)
      case Err(p) => Err(p)
      case Ok(info) => Ok(Scene(fullName, stem, contents, script, info.count > 1, info.masterType))
  }

  /** Construction fails exactly when there is no node entry or the first one has no complete
      `type="..."`; the scene then has children iff it has more than one node entry, the master
      node's type, and the script whose resource path is the declared one, if any. */
  lemma NewSceneBuilt(fullName: string, stem: string, contents: string, scripts: seq<Script>)
    ensures var lines := Lines(contents);
      NewScene(fullName, stem, contents, scripts).Ok? <==>
        MasterLine(lines).Some? && MasterType(fullName, MasterLine(lines).value).Ok?
    ensures var lines := Lines(contents);
      NewScene(fullName, stem, contents, scripts).Err? ==>
        NewScene(fullName, stem, contents, scripts).problem ==
          if MasterLine(lines).None? then Problem(fullName, NoMasterNode)
          else MasterType(fullName, MasterLine(lines).value).problem
    ensures var lines := Lines(contents);
      var r := NewScene(fullName, stem, contents, scripts);
      r.Ok? ==>
        r.value.fullName == fullName && r.value.name == stem && r.value.contents == contents &&
        (r.value.hasChildren <==> NodeCount(lines) > 1) &&
        Ok(r.value.gdType) == MasterType(fullName, MasterLine(lines).value) &&
        r.value.script == match DeclaredScriptPath(fullName, lines).value
                          case None => None
                          case Some(path) => FindScript(scripts, path)
  {
    DeclaredScriptPathIsRestOfLine(fullName, Lines(contents));
  }

  /** When every declaration closes its path with a quote and no script's resource path holds a
      quote, no scene is ever linked to a script. */
  lemma QuotedDeclarationNeverLinks(fullName: string, stem: string, contents: string, scripts: seq<Script>)
    requires forall l :: l in Lines(contents) && DeclaresScript(l) ==> '"' in l[|ScriptDeclarationPrefix|..]
    requires forall k :: 0 <= k < |scripts| ==> '"' !in scripts[k].gdPath
    ensures NewScene(fullName, stem, contents, scripts).Ok? ==> NewScene(fullName, stem, contents, scripts).value.script.None?
  {
    var lines := Lines(contents);
    DeclaredScriptPathIsRestOfLine(fullName, lines);
    var declared := DeclaredScriptPath(fullName, lines).value;
    if declared.Some? {
      var i :| 0 <= i < |lines| && DeclaresScript(lines[i]) && declared.value == lines[i][|ScriptDeclarationPrefix|..];
      assert lines[i] in lines;
      assert '"' in declared.value;
    }
  }

  /** The constructor: reads the declared script path, links the script, then runs the node scan. */
  method BuildScene(fullName: string, stem: string, contents: string, scripts: seq<Script>) returns (r: Result<Scene>)
    ensures r == NewScene(fullName, stem, contents, scripts)
  {
    var lines := Lines(contents);
    var declared := DeclaredScriptPath(fullName, lines);
    if declared.Err? {
      return Err(declared.problem);
    }
    var script := if declared.value.Some? then FindScript(scripts, declared.value.value) else None;
    var nodes := ScanNodes(fullName, lines);
    if nodes.Err? {
      return Err(nodes.problem);
    }
    return Ok(Scene(fullName, stem, contents, script, nodes.value.count > 1, nodes.value.masterType));
  }
}
