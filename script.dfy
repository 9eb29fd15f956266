/** Scripts: the header-line parser, the construction of a Script from its file name, stem,
    resource path and contents, and the four rule checks a Script answers about itself. */
module Scripts {
  import opened Text
  import opened Problems

  /** Decided by the first two characters of the file name. */
  datatype ScriptKind = Behaviour | Value | Reference

  datatype Script = Script(
    fullName: string,
    name: string,
    gdPath: string,
    contents: string,
    kind: ScriptKind,
    className: Option<string>,
    extendsName: Option<string>)

  /** What one line declares, or why it cannot be read. `LinePanic` is an index past the end
      of a vector: the process aborts, no error value is returned. */
  datatype LineHeader =
    | Declares(className: Option<string>, extendsName: Option<string>)
    | LineErr(error: LineError)
    | LinePanic

  const ClassNamePrefix: string := "class_name "
  const ExtendsPrefix: string := "extends"
  const ExtendsAfterClassName: string := "extends "

  /** The piece count the source passes to `splitn` when it cuts a class-name remainder
      that contains a space. */
  const ClassNameSplitLimit: nat := 1

  /** The header-line parser with the `splitn` count as a parameter. */
  function ClassifyLineWith(line: string, limit: nat): (r: LineHeader) {
    var trimmed := Trim(line);
    match StripPrefix(trimmed, ClassNamePrefix)
    case Some(afterKeyword) =>
      var className := Trim(afterKeyword);
      if ' ' !in className then Declares(Some(className), None)
      else
        var pieces := SplitN(className, limit, " ");
        if |pieces| < 2 then LinePanic
        else
          (match StripPrefix(pieces[1], ExtendsAfterClassName)
           case Some(target) => Declares(Some(pieces[0]), Some(target))
           case None => LineErr(WordAfterClassNameWithoutExtends))
    case None =>
      match StripPrefix(trimmed, ExtendsPrefix)
      case Some(afterKeyword) =>
        var target := Trim(afterKeyword);
        if ' ' !in target then Declares(None, Some(target)) else LineErr(WordAfterExtends)
      case None => Declares(None, None)
  }

  /** The header-line parser as the source runs it. A `class_name ` line whose remainder holds
      a space never parses: the one-piece split leaves nothing at index 1. */
  function ClassifyLine(line: string): (r: LineHeader)
    ensures StartsWith(Trim(line), ClassNamePrefix) ==>
      var rest := Trim(Trim(line)[|ClassNamePrefix|..]);
      r == if ' ' in rest then LinePanic else Declares(Some(rest), None)
    ensures !StartsWith(Trim(line), ClassNamePrefix) && StartsWith(Trim(line), ExtendsPrefix) ==>
      var rest := Trim(Trim(line)[|ExtendsPrefix|..]);
      r == if ' ' in rest then LineErr(WordAfterExtends) else Declares(None, Some(rest))
    ensures !StartsWith(Trim(line), ClassNamePrefix) && !StartsWith(Trim(line), ExtendsPrefix) ==>
      r == Declares(None, None)
    ensures r.LineErr? ==> r.error == WordAfterExtends
    ensures r.Declares? ==> r.className.None? || r.extendsName.None?
  {
    ClassifyLineWith(line, ClassNameSplitLimit)
  }

  /** A word with no whitespace in it. */
  predicate Word(w: string) {
    |w| > 0 && forall c :: c in w ==> !IsWhitespace(c)
  }

  /** `class_name <name> extends <target>` panics with the source's one-piece split, and would
      declare both with the two-piece split the code evidently meant. */
  lemma {:induction false} ClassNameAndExtendsOnOneLine(name: string, target: string)
    requires Word(name) && Word(target)
    ensures ClassifyLine(ClassNamePrefix + name + " " + ExtendsAfterClassName + target) == LinePanic
    ensures ClassifyLineWith(ClassNamePrefix + name + " " + ExtendsAfterClassName + target, 2) ==
            Declares(Some(name), Some(target))
  {
    var rest := name + " " + ExtendsAfterClassName + target;
    ClassNameLineParts(name, target, rest);
    FirstSpaceAfterWord(name, rest);
    assert rest[..|name|] == name;
    assert rest[|name| + 1..] == ExtendsAfterClassName + target;
    assert SplitN(rest, 2, " ") == [name, ExtendsAfterClassName + target];
  }

  lemma ClassNameLineParts(name: string, target: string, rest: string)
    requires Word(name) && Word(target) && rest == name + " " + ExtendsAfterClassName + target
    ensures var line := ClassNamePrefix + name + " " + ExtendsAfterClassName + target;
      Trim(line) == line && StripPrefix(line, ClassNamePrefix) == Some(rest) &&
      Trim(rest) == rest && ' ' in rest && rest[|name|] == ' '
  {
    var line := ClassNamePrefix + rest;
    assert line == ClassNamePrefix + name + " " + ExtendsAfterClassName + target;
    assert line[0] == 'c' && line[|line| - 1] == target[|target| - 1];
    AlreadyTrimmed(line);
    assert rest[0] == name[0] && rest[|rest| - 1] == target[|target| - 1];
    AlreadyTrimmed(rest);
    assert rest[|name|] == ' ';
  }

  lemma AlreadyTrimmed(s: string)
    requires |s| > 0 && !IsWhitespace(s[0]) && !IsWhitespace(s[|s| - 1])
    ensures Trim(s) == s
  {
  }

  lemma FirstSpaceAfterWord(w: string, s: string)
    requires Word(w) && |w| < |s| && s[..|w|] == w && s[|w|] == ' '
    ensures Find(s, " ") == Some(|w|)
  {
    assert OccursAt(s, " ", |w|) by { assert s[|w|..|w| + 1] == [s[|w|]]; }
    forall j: nat | j < |w| ensures !OccursAt(s, " ", j) {
      assert s[j..j + 1] == [s[j]];
      assert s[j] == w[j] && w[j] in w;
    }
  }

  /** `v_` names a Value script, `r_` a Reference script, anything else a Behaviour script. */
  function KindOf(fullName: string): (k: ScriptKind)
    ensures k == Value <==> StartsWith(fullName, "v_")
    ensures k == Reference <==> StartsWith(fullName, "r_")
    ensures k == Behaviour <==> !StartsWith(fullName, "v_") && !StartsWith(fullName, "r_")
  {
    if |fullName| < 2 then Behaviour
    else
      var prefix := fullName[..2];
      if prefix == "v_" then Value else if prefix == "r_" then Reference else Behaviour
  }

  /** The logical name: the stem of a Behaviour script, the stem without its two-character
      prefix otherwise; `None` when the stem is too short to drop two characters. */
  function DeriveName(kind: ScriptKind, stem: string): (r: Option<string>)
    ensures kind == Behaviour ==> r == Some(stem)
    ensures kind != Behaviour ==> (r.Some? <==> |stem| >= 2)
    ensures kind != Behaviour && r.Some? ==> stem == stem[..2] + r.value && |r.value| == |stem| - 2
  {
    match kind
    case Behaviour => Some(stem)
    case _ => if |stem| >= 2 then Some(stem[2..]) else None
  }

  /** The class name a line declares, if it parses and declares one. */
  function ClassNameOf(line: string): (r: Option<string>) {
    match ClassifyLine(line)
    case Declares(c, _) => c
    case _ => None
  }

  function ExtendsOf(line: string): (r: Option<string>) {
    match ClassifyLine(line)
    case Declares(_, x) => x
    case _ => None
  }

  predicate Parses(line: string) {
    ClassifyLine(line).Declares?
  }

  function Count<T>(o: Option<T>): (r: nat) {
    if o.Some? then 1 else 0
  }

  function OrElse<T>(a: Option<T>, b: Option<T>): (r: Option<T>) {
    if a.Some? then a else b
  }

  /** The number of lines that declare a class name. */
  function ClassNameCount(lines: seq<string>): (r: nat) {
    if |lines| == 0 then 0 else Count(ClassNameOf(lines[0])) + ClassNameCount(lines[1..])
  }

  function ExtendsCount(lines: seq<string>): (r: nat) {
    if |lines| == 0 then 0 else Count(ExtendsOf(lines[0])) + ExtendsCount(lines[1..])
  }

  /** The class name declared by the earliest line that declares one. */
  function FirstClassName(lines: seq<string>): (r: Option<string>) {
    if |lines| == 0 then None else OrElse(ClassNameOf(lines[0]), FirstClassName(lines[1..]))
  }

  function FirstExtends(lines: seq<string>): (r: Option<string>) {
    if |lines| == 0 then None else OrElse(ExtendsOf(lines[0]), FirstExtends(lines[1..]))
  }

  datatype HeaderScan =
    | Headers(className: Option<string>, extendsName: Option<string>)
    | HeaderFailed(problem: Problem)
    | HeaderPanicked

  /** The header fold of the constructor, over the lines still to read, with what earlier
      lines declared in `className` and `extends`. */
  function ScanHeaders(fullName: string, lines: seq<string>,
                       className: Option<string>, extendsName: Option<string>): (r: HeaderScan)
  {
    if |lines| == 0 then Headers(className, extendsName)
    else match ClassifyLine(lines[0])
      case LinePanic => HeaderPanicked
      case LineErr(e) => HeaderFailed(Problem(fullName, LineRejected(e)))
      case Declares(c, x) =>
        if c.Some? && className.Some? then HeaderFailed(Problem(fullName, MultipleClassNames))
        else if x.Some? && extendsName.Some? then HeaderFailed(Problem(fullName, MultipleExtends))
        else ScanHeaders(fullName, lines[1..], OrElse(c, className), OrElse(x, extendsName))
  }

  /** The fold succeeds exactly when every line parses and at most one declaration of each kind
      is seen in all; each field then holds the value of its single declaring line. */
  lemma {:induction false} ScanHeadersSucceeds(fullName: string, lines: seq<string>,
                                               className: Option<string>, extendsName: Option<string>)
    ensures ScanHeaders(fullName, lines, className, extendsName).Headers? <==>
      (forall l :: l in lines ==> Parses(l)) &&
      ClassNameCount(lines) + Count(className) <= 1 &&
      ExtendsCount(lines) + Count(extendsName) <= 1
    ensures ScanHeaders(fullName, lines, className, extendsName).Headers? ==>
      ScanHeaders(fullName, lines, className, extendsName) ==
        Headers(OrElse(className, FirstClassName(lines)), OrElse(extendsName, FirstExtends(lines)))
    decreases |lines|
  {
    if |lines| > 0 {
      var line := lines[0];
      assert line in lines;
      assert forall l :: l in lines[1..] ==> l in lines;
      assert forall l :: l in lines ==> l == line || l in lines[1..];
      match ClassifyLine(line)
      case LinePanic =>
      case LineErr(e) =>
      case Declares(c, x) =>
        if !(c.Some? && className.Some?) && !(x.Some? && extendsName.Some?) {
          ScanHeadersSucceeds(fullName, lines[1..], OrElse(c, className), OrElse(x, extendsName));
        }
    }
  }

  /** When the lines before `k` parse, one class name is already known, `extends` has not
      repeated, and line `k` declares a class name, the fold fails at line `k` with
      "multiple class_names", whatever the later lines hold. */
  lemma {:induction false} ScanHeadersRepeatedClassName(fullName: string, lines: seq<string>, k: nat,
                                                        className: Option<string>, extendsName: Option<string>)
    requires k < |lines| && Parses(lines[k]) && ClassNameOf(lines[k]).Some?
    requires forall j :: 0 <= j < k ==> Parses(lines[j])
    requires ClassNameCount(lines[..k]) + Count(className) == 1
    requires ExtendsCount(lines[..k]) + Count(extendsName) <= 1
    ensures ScanHeaders(fullName, lines, className, extendsName) == HeaderFailed(Problem(fullName, MultipleClassNames))
    decreases k
  {
    if k > 0 {
      var line := lines[0];
      assert Parses(lines[0]);
      assert lines[..k][0] == line && lines[..k][1..] == lines[1..][..k - 1];
      var c, x := ClassNameOf(line), ExtendsOf(line);
      ScanHeadersRepeatedClassName(fullName, lines[1..], k - 1, OrElse(c, className), OrElse(x, extendsName));
    }
  }

  /** When the lines before `k` parse, the class name has not repeated, one `extends` is already
      known, and line `k` declares an `extends`, the fold fails at line `k` with "multiple
      extends", whatever the later lines hold. */
  lemma {:induction false} ScanHeadersRepeatedExtends(fullName: string, lines: seq<string>, k: nat,
                                                      className: Option<string>, extendsName: Option<string>)
    requires k < |lines| && Parses(lines[k]) && ExtendsOf(lines[k]).Some?
    requires forall j :: 0 <= j < k ==> Parses(lines[j])
    requires ClassNameCount(lines[..k]) + Count(className) <= 1
    requires ExtendsCount(lines[..k]) + Count(extendsName) == 1
    ensures ScanHeaders(fullName, lines, className, extendsName) == HeaderFailed(Problem(fullName, MultipleExtends))
    decreases k
  {
    if k > 0 {
      var line := lines[0];
      assert Parses(lines[0]);
      assert lines[..k][0] == line && lines[..k][1..] == lines[1..][..k - 1];
      var c, x := ClassNameOf(line), ExtendsOf(line);
      ScanHeadersRepeatedExtends(fullName, lines[1..], k - 1, OrElse(c, className), OrElse(x, extendsName));
    }
  }

  /** When the lines before `k` parse without repetition and line `k` does not parse, the fold
      stops at line `k`: its error, attributed to the file, or the panic. */
  lemma {:induction false} ScanHeadersStopsAtBadLine(fullName: string, lines: seq<string>, k: nat,
                                                     className: Option<string>, extendsName: Option<string>)
    requires k < |lines| && !Parses(lines[k])
    requires forall j :: 0 <= j < k ==> Parses(lines[j])
    requires ClassNameCount(lines[..k]) + Count(className) <= 1
    requires ExtendsCount(lines[..k]) + Count(extendsName) <= 1
    ensures ScanHeaders(fullName, lines, className, extendsName) ==
      match ClassifyLine(lines[k])
      case LineErr(e) => HeaderFailed(Problem(fullName, LineRejected(e)))
      case _ => HeaderPanicked
    decreases k
  {
    if k > 0 {
      var line := lines[0];
      assert Parses(lines[0]);
      assert lines[..k][0] == line && lines[..k][1..] == lines[1..][..k - 1];
      var c, x := ClassNameOf(line), ExtendsOf(line);
      ScanHeadersStopsAtBadLine(fullName, lines[1..], k - 1, OrElse(c, className), OrElse(x, extendsName));
    }
  }

  /** Every error of the fold names the file. */
  lemma {:induction false} ScanHeadersNamesFile(fullName: string, lines: seq<string>,
                                                className: Option<string>, extendsName: Option<string>)
    ensures ScanHeaders(fullName, lines, className, extendsName).HeaderFailed? ==>
      ScanHeaders(fullName, lines, className, extendsName).problem.Problem? &&
      ScanHeaders(fullName, lines, className, extendsName).problem.file == fullName
    decreases |lines|
  {
    if |lines| > 0 {
      match ClassifyLine(lines[0])
      case LinePanic =>
      case LineErr(e) =>
      case Declares(c, x) =>
        ScanHeadersNamesFile(fullName, lines[1..], OrElse(c, className), OrElse(x, extendsName));
    }
  }

  datatype ScriptBuild = Built(script: Script) | Failed(problem: Problem) | Panicked

  /** `Script::new` on the file name, the file stem, the resource path and the contents. */
  function NewScript(fullName: string, stem: string, gdPath: string, contents: string): (r: ScriptBuild) {
    var kind := KindOf(fullName);
    match DeriveName(kind, stem)
    case None => Failed(NameUnderivable)
    case Some(name) =>
      match ScanHeaders(fullName, Lines(contents), None, None)
      case HeaderPanicked => Panicked
      case HeaderFailed(p) => Failed(p)
      case Headers(c, x) => Built(Script(fullName, name, gdPath, contents, kind, c, x))
  }

  /** Every line parses, and no class name or `extends` is declared twice. */
  predicate WellFormedHeaders(lines: seq<string>) {
    (forall l :: l in lines ==> Parses(l)) && ClassNameCount(lines) <= 1 && ExtendsCount(lines) <= 1
  }

  /** Construction succeeds exactly when the name can be derived and the headers are well formed;
      the Script then carries the kind and name derived from the file name and stem, and the
      class name and `extends` of the lines that declare them. */
  lemma NewScriptBuilt(fullName: string, stem: string, gdPath: string, contents: string)
    ensures NewScript(fullName, stem, gdPath, contents).Built? <==>
      DeriveName(KindOf(fullName), stem).Some? && WellFormedHeaders(Lines(contents))
    ensures NewScript(fullName, stem, gdPath, contents).Built? ==>
      var s := NewScript(fullName, stem, gdPath, contents).script;
      s.fullName == fullName && s.gdPath == gdPath && s.contents == contents &&
      s.kind == KindOf(fullName) && Some(s.name) == DeriveName(KindOf(fullName), stem) &&
      s.className == FirstClassName(Lines(contents)) && s.extendsName == FirstExtends(Lines(contents))
    ensures NewScript(fullName, stem, gdPath, contents).Failed? ==>
      var p := NewScript(fullName, stem, gdPath, contents).problem;
      p == NameUnderivable || (p.Problem? && p.file == fullName)
  {
    ScanHeadersSucceeds(fullName, Lines(contents), None, None);
    ScanHeadersNamesFile(fullName, Lines(contents), None, None);
  }

  /** The constructor: derives kind and name, then folds the header parser over the lines,
      stopping at the first bad line or the first repeated declaration. */
  method BuildScript(fullName: string, stem: string, gdPath: string, contents: string) returns (r: ScriptBuild)
    ensures r == NewScript(fullName, stem, gdPath, contents)
  {
    var kind := KindOf(fullName);
    var derived := DeriveName(kind, stem);
    if derived.None? {
      return Failed(NameUnderivable);
    }
    var name := derived.value;
    var lines := Lines(contents);
    var className: Option<string> := None;
    var extendsName: Option<string> := None;
    var i := 0;
    while i < |lines|
      invariant 0 <= i <= |lines|
      invariant ScanHeaders(fullName, lines, None, None) == ScanHeaders(fullName, lines[i..], className, extendsName)
    {
      assert lines[i..][1..] == lines[i + 1..];
      match ClassifyLine(lines[i]) {
        case LinePanic =>
          return Panicked;
        case LineErr(e) =>
          return Failed(Problem(fullName, LineRejected(e)));
        case Declares(c, x) =>
          if c.Some? {
            if className.Some? {
              return Failed(Problem(fullName, MultipleClassNames));
            }
            className := c;
          }
          if x.Some? {
            if extendsName.Some? {
              return Failed(Problem(fullName, MultipleExtends));
            }
            extendsName := x;
          }
      }
      i := i + 1;
    }
    return Built(Script(fullName, name, gdPath, contents, kind, className, extendsName));
  }

  /** The first character of an upper-camel-case name is not a lower-case letter, and the name
      holds no underscore; the empty name qualifies. */
  predicate UpperCamelCase(name: string) {
    (|name| > 0 ==> !('a' <= name[0] <= 'z')) && '_' !in name
  }

  /** ASCII `to_uppercase`. */
  function ToUpper(c: char): (r: char) {
    if 'a' <= c <= 'z' then (c as int - 32) as char else c
  }

  /** `check_name_is_upper_camel_case`: the first character must equal its upper-case form and
      the name must not contain `_`. */
  function CheckNameIsUpperCamelCase(s: Script): (r: Outcome)
    ensures r.Pass? <==> UpperCamelCase(s.name)
    ensures r.Fail? ==> r.problem == Problem(s.fullName, NotUpperCamelCase)
  {
    if |s.name| >= 1 && s.name[0] != ToUpper(s.name[0]) then Fail(Problem(s.fullName, NotUpperCamelCase))
    else if '_' in s.name then Fail(Problem(s.fullName, NotUpperCamelCase))
    else Pass
  }

  /** `check_extends_node`: passes only for `extends Node`. */
  function CheckExtendsNode(s: Script): (r: Outcome)
    ensures r.Pass? <==> s.extendsName == Some("Node")
    ensures r.Fail? ==> r.problem == Problem(s.fullName, if s.extendsName.None? then ExtendsNothing else ExtendsNotNode)
  {
    match s.extendsName
    case Some(target) => if target != "Node" then Fail(Problem(s.fullName, ExtendsNotNode)) else Pass
    case None => Fail(Problem(s.fullName, ExtendsNothing))
  }

  /** `check_matching_script_name_and_class_name`: the declared class name must be the name. */
  function CheckMatchingScriptNameAndClassName(s: Script): (r: Outcome)
    ensures r.Pass? <==> s.className == Some(s.name)
    ensures r.Fail? ==> r.problem == Problem(s.fullName, if s.className.None? then NoClassName else ClassNameMismatch)
  {
    match s.className
    case Some(declared) => if declared != s.name then Fail(Problem(s.fullName, ClassNameMismatch)) else Pass
    case None => Fail(Problem(s.fullName, NoClassName))
  }

  /** A line an export-only body may hold: blank, a header, a comment, or an exported field. */
  predicate AllowedBodyLine(line: string) {
    var trimmed := Trim(line);
    trimmed == "" || StartsWith(trimmed, "class_name") || StartsWith(trimmed, "extends") ||
    StartsWith(trimmed, "#") || StartsWith(trimmed, "@export var ")
  }

  predicate ExportOnlyBody(contents: string) {
    forall l :: l in Lines(contents) ==> AllowedBodyLine(l)
  }

  /** `check_contains_non_export_var`: fails at the first line that is neither skipped nor an
      `@export var ` declaration. */
  method CheckContainsNonExportVar(s: Script) returns (r: Outcome)
    ensures r.Pass? <==> ExportOnlyBody(s.contents)
    ensures r.Fail? ==> r.problem == Problem(s.fullName, NonExportVar)
  {
    var lines := Lines(s.contents);
    for i := 0 to |lines|
      invariant forall k :: 0 <= k < i ==> AllowedBodyLine(lines[k])
    {
      var trimmed := Trim(lines[i]);
      if trimmed == "" || StartsWith(trimmed, "class_name") || StartsWith(trimmed, "extends") ||
         StartsWith(trimmed, "#") {
        continue;
      }
      if !StartsWith(trimmed, "@export var ") {
        assert !AllowedBodyLine(lines[i]);
        return Fail(Problem(s.fullName, NonExportVar));
      }
    }
    assert forall l :: l in lines ==> AllowedBodyLine(l) by {
      forall l | l in lines ensures AllowedBodyLine(l) {
        var k :| 0 <= k < |lines| && lines[k] == l;
      }
    }
    return Pass;
  }
}
