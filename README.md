# Godot convention linter — a verified model

The linter reads every `.gd` script and every `.tscn` scene of a Godot project and reports the
places where the project breaks its conventions:

- **Script kind.** A script's kind comes from its file name: `v_` marks a Value script, `r_` a
  Reference script, anything else a Behaviour script.
- **Script headers.** Each script declares its class name and base class in `class_name` and
  `extends` header lines.
- **Shared script rules.** Every script needs an upper-camel-case name, no `$` anywhere, and static
  typing on every `var`.
- **Per-kind rules.** Behaviour and Value scripts must declare a `class_name` equal to their name.
  Reference scripts must not declare one. Every script must `extends Node`. Value and Reference
  scripts may hold only `@export var` declarations.
- **Scenes.** A scene's master node must be a `Node`, `Node2D` or `Node3D`. A scene may carry a
  script only when it has no children. Reference scripts never go on a master node. Behaviour and
  Value scripts go only on a plain `Node`.

The run first builds a model of each script. It then checks each script on its own and builds
each scene against the complete set of scripts, linking a scene to its script by resource path
(`res://...`). Finally it checks each scene. The output is three lists:

- construction failures;
- script-rule violations;
- scene-rule violations.

The Dafny project has five modules:

- `Text` (`text.dfy`): the Rust `str` operations the code relies on, over ASCII —
  `trim`, `lines`, `strip_prefix`, `starts_with`, `contains`, `find`, `split` and `splitn` —
  with their laws (for example, split followed by join is the identity).
- `Problems` (`problems.dfy`): every error and violation the linter reports, as a datatype.
- `Scripts` (`script.dfy`, modelling `src/script.rs`):
  - the header-line parser;
  - `Script::new`, as a specification function plus a loop method proved equal to it;
  - the four checks a script answers about itself.
- `Scenes` (`scene.dfy`, modelling `src/scene.rs`):
  - `Scene::new`: script-path extraction, script lookup by resource path, and the node-counting
    loop;
  - the link from a scene to a script, held as an index into the script sequence.
- `Linter` (`linter.dfy`, modelling `src/main.rs`):
  - `split_on_any`;
  - the script and scene rule engines;
  - the `res://` path mapping;
  - the body of `main` after discovery, as four loop methods and `Run`, each proved equal to a
    specification function, and lemmas about those functions.

The run takes each script file as its name, its stem, its path relative to the project root and
its text, and each scene file as its name, its stem and its text.

## Model

| member | source | states |
|---|---|---|
| Scripts.ClassifyLine | src/script.rs:5-26 | Three cases on the trimmed line. (1) It starts with `class_name `: the trimmed remainder is the class name when it has no space; with a space the line panics. (2) Otherwise it starts with `extends`: the trimmed remainder is the base when it has no space, and the "another word after the extends" error otherwise. (3) Any other line declares nothing. The only reachable error is the `extends` one, and no line declares both. |
| Scripts.ClassNameAndExtendsOnOneLine | src/script.rs:11-16 | `class_name A extends B` panics with the source's `splitn(1, " ")`. With a two-piece split the same line declares both `A` and `B`. |
| Scripts.KindOf | src/script.rs:58-62 | Value iff the file name starts with `v_`; Reference iff it starts with `r_`; Behaviour otherwise. |
| Scripts.DeriveName | src/script.rs:64-78 | A Behaviour name is the stem. Otherwise it is the stem minus its first two characters, and does not exist when the stem is shorter than two characters. |
| Scripts.ScanHeadersSucceeds | src/script.rs:80-103 | The header fold succeeds iff every line parses and at most one line declares each of class name and `extends`. The fields then hold the values of those single declaring lines. |
| Scripts.ScanHeadersRepeatedClassName | src/script.rs:89-94 | Suppose the lines before line k parse, one class name is already declared, and `extends` has not repeated. If line k declares a class name, construction fails with "multiple class_names" for that file, whatever the later lines hold. |
| Scripts.ScanHeadersRepeatedExtends | src/script.rs:95-100 | Suppose the lines before line k parse, the class name has not repeated, and one `extends` is already declared. If line k declares an `extends`, construction fails with "multiple extends", whatever the later lines hold. |
| Scripts.ScanHeadersStopsAtBadLine | src/script.rs:82-87 | The fold stops at the first line that does not parse. It reports that line's error, attributed to the file, or the panic. |
| Scripts.ScanHeadersNamesFile | src/script.rs:85-98 | Every construction error of the fold names the file. |
| Scripts.NewScriptBuilt | src/script.rs:47-115 | Construction succeeds iff the name can be derived and the headers are well formed. The Script then carries the given name, path and contents, the derived kind and name, and the declared class name and base. Every failure names the file, except the underivable-name one. |
| Scripts.BuildScript | src/script.rs:80-114 | The constructor's line loop, with its accumulators and early returns, computes exactly `NewScript`. |
| Scripts.CheckNameIsUpperCamelCase | src/script.rs:117-127 | Passes iff the first character is not a lower-case letter and the name has no `_`; the empty name passes. A failure is "name not upper camel case". |
| Scripts.CheckExtendsNode | src/script.rs:129-145 | Passes iff the script extends `Node`. A failure is "doesn't extend Node" or "doesn't extend anything". |
| Scripts.CheckMatchingScriptNameAndClassName | src/script.rs:167-182 | Passes iff the class name equals the name. A failure is "don't match" or "doesn't have a class_name". |
| Scripts.CheckContainsNonExportVar | src/script.rs:147-165 | Passes iff every trimmed line is blank, starts with `class_name`, `extends` or `#`, or starts with `@export var `. A failure is "contains a non @export var statement". |
| Scenes.DeclaredScriptPathIsRestOfLine | src/scene.rs:35-46 | The missing-quote error never occurs. The declared path is the whole rest of the first line that starts, untrimmed, with the script declaration prefix. There is no path iff no line starts with that prefix. |
| Scenes.DeclaredPathKeepsClosingQuote | src/scene.rs:38-44 | For `...path="V"T` the extracted path is `V"T`, closing quote included. A two-piece split would give `V`. |
| Scenes.FindScript | src/scene.rs:48-54 | The linked script is the first in collection order whose resource path equals the declared one. There is none iff no script has that path. |
| Scenes.MasterType | src/scene.rs:60-77 | The type is the text between the first `type="` and the next quote, and holds no quote. The failure is "no type on master node" without a `type="`, and "can't find end of type" otherwise. |
| Scenes.LaterNodeLinesOnlyCounted | src/scene.rs:56-80 | Lines after the master node only add to the node count. They change neither the outcome nor the master type. |
| Scenes.ScanNodes | src/scene.rs:56-84 | The node loop, with its counter and its type variable, computes `NodeSummary`: the master line's type and the count of `[node ` lines, or the master line's type error, or "no master node". |
| Scenes.NewScene | src/scene.rs:48-54 | A linked script is an index into the script collection. |
| Scenes.NewSceneBuilt | src/scene.rs:18-95 | Construction fails iff there is no node line or the first one lacks a complete `type="..."`, and the error is that one. Otherwise: (1) the scene has children iff there are two or more node lines; (2) it carries the master type; (3) it carries the first script whose path is the declared one. |
| Scenes.QuotedDeclarationNeverLinks | src/scene.rs:35-54 | Suppose every declaration line has a quote after the prefix and no script path holds a quote. Then no scene is linked to a script. |
| Scenes.BuildScene | src/scene.rs:18-95 | The constructor computes exactly `NewScene`. |
| Linter.SplitOnAny | src/main.rs:10-20 | The loop that re-splits every segment on each pattern computes `Segments`. |
| Linter.SegmentsAvoidPatterns | src/main.rs:10-20 | There is always at least one segment, and no segment contains any of the patterns. |
| Linter.SegmentsOfOnePatternJoin | src/main.rs:10-20 | With a single pattern, joining the segments with it gives back the input. |
| Linter.CheckBehaviourScriptIsolated | src/main.rs:77-81 | Passes iff the class name equals the name and the script extends `Node`. A wrong or missing class name is reported first ("don't match" or "doesn't have a class_name"). Only after that comes the `extends` failure ("doesn't extend Node" or "doesn't extend anything"). Every failure names the file. |
| Linter.CheckValueScriptIsolated | src/main.rs:56-62 | Passes iff the class name equals the name, the script extends `Node`, and the body is export-only. The failure reported is the first in that order: class name, then `extends`, then "contains a non @export var statement". |
| Linter.CheckReferenceScriptIsolated | src/main.rs:64-75 | Passes iff there is no class name, the script extends `Node`, and the body is export-only. The failure reported is the first in that order: "reference script has class_name", then the `extends` failure, then "contains a non @export var statement". |
| Linter.ScriptVerdict | src/main.rs:83-107 | Passes iff the script conforms: upper camel case, no `$`, every segment typed, and its kind's rules. The checks run in that order, and the first failure is the one reported. Once the three common checks pass, the result is exactly the check of the script's kind. Every failure names the file. |
| Linter.CheckScriptIsolated | src/main.rs:83-107 | The nested scan over segments and characters, stopping at `:` and failing at an earlier `=`, computes `ScriptVerdict`. |
| Linter.CheckScene | src/main.rs:109-129 | Children together with a script give "has children and script", whatever the script's kind. Otherwise the failures come in this order: (1) a master type other than `Node`, `Node2D` or `Node3D` gives "not of type Node, Node2D, or Node3D"; (2) a linked Reference script gives "reference script should not be on scene master"; (3) a linked Behaviour or Value script on a type other than `Node` gives "isn't type Node but has a behaviour or value script". Otherwise the scene passes. With no script, it passes iff the type is one of the three. |
| Linter.ForwardSlashes | src/main.rs:158 | Keeps the length, replaces every backslash with `/`, and changes no other character. |
| Linter.ResPath | src/main.rs:153-161 | The resource path starts with `res://`, is six characters longer than the relative path, and has no backslash. Character i of the relative path becomes character 6 + i, unchanged, except that a backslash becomes `/`. |
| Linter.QuoteFreeResPath | src/main.rs:153-161 | A relative path without a quote gives a resource path without a quote. |
| Linter.BuiltScenes | src/main.rs:196-208 | Every built scene refers only to scripts of the collection it was built against. |
| Linter.BuildScripts | src/main.rs:163-180 | The script loop reports a panic iff some script file panics. Otherwise it returns the built scripts and the construction failures, each in file order. |
| Linter.CheckScripts | src/main.rs:182-191 | The script filter loop computes `ScriptProblems`. |
| Linter.BuildScenes | src/main.rs:196-208 | The scene loop returns the built scenes and the construction failures, in file order. |
| Linter.CheckScenes | src/main.rs:210-219 | The scene filter loop computes `SceneProblems`. |
| Linter.Run | src/main.rs:163-219 | The sequence of the four loops computes `RunSpec`. |
| Linter.ScriptFilesAccountedFor | src/main.rs:165-180 | Without a panic, each script file gives either a built script or a general problem. Every built script comes from a file, and every failure is reported. |
| Linter.SceneFilesCounted | src/main.rs:196-208 | Each scene file gives either a built scene or a general problem. |
| Linter.BuiltScenesFromFiles | src/main.rs:196-208 | Every built scene is the result of building some scene file. |
| Linter.SceneFailuresReported | src/main.rs:196-208 | Every scene construction failure is in the problem list. |
| Linter.ScriptProblemsPerScript | src/main.rs:182-191 | At most one problem per script, each a failing script's verdict. There are none iff every script conforms. |
| Linter.SceneProblemsPerScene | src/main.rs:210-219 | At most one problem per scene, each a failing scene's verdict. There are none iff every scene passes. |
| Linter.FailingScripts | src/main.rs:182-191 | The positions of the failing built scripts: strictly increasing, each a script whose check fails, and including every such script. |
| Linter.ScriptProblemsAreFailingVerdicts | src/main.rs:182-191 | The script problems are exactly the failing verdicts: entry m is the failure of the m-th failing script, in build order. The filter never stops early and never skips a failing script. |
| Linter.FailingScenes | src/main.rs:210-219 | The positions of the failing built scenes: strictly increasing, each a scene whose check fails, and including every such scene. |
| Linter.SceneProblemsAreFailingVerdicts | src/main.rs:210-219 | The scene problems are exactly the failing verdicts: entry m is the failure of the m-th failing scene, in build order. The filter never stops early and never skips a failing scene. |
| Linter.ScriptFailuresAllReported | src/main.rs:182-191 | The failure of every failing built script appears in the script problems. |
| Linter.SceneFailuresAllReported | src/main.rs:210-219 | The failure of every failing built scene appears in the scene problems. |
| Linter.RunCollectsEveryProblem | src/main.rs:163-219 | The run aborts iff some script file panics. Otherwise: (1) the general problems number exactly the files that did not build; (2) the script problems number exactly the failing built scripts; (3) the scene problems number exactly the failing built scenes. |
| Linter.BuiltScriptPaths | src/main.rs:153-180 | Every built script carries the resource path and the name of one of the script files. |
| Linter.BuiltScriptsQuoteFree | src/main.rs:153-180 | When no relative path has a quote, no built script's resource path has one. |
| Linter.QuotedDeclarationsNeverLinkInRun | src/main.rs:163-208 | Suppose no relative path has a quote and every scene declaration line closes its path with a quote. Then no scene of the run is linked to a script. |

## Behaviour of the code as written

These points come from the source, and the model follows the source on each of them:

- **Script constructor arguments.** `Script::new` takes one argument (src/script.rs:47), but
  `main` passes two (src/main.rs:168-171).
- **The `gd_path` field.** `Script` has no `gd_path` field (src/script.rs:36-44), but the scene
  lookup reads one (src/scene.rs:52).
- How the model settles both mismatches:
  - the constructor takes the resource path as an input;
  - `Script` stores it as `gdPath`.
- **Header parsing.** `splitn(1, " ")` yields a single piece, so indexing `rest_of_line[1]` is out
  of range.
  - Every `class_name` line whose remainder holds a space panics.
  - The panic ends the process, so the model reports it as an aborted run (`LinePanic`, `Panicked`,
    `Aborted`) rather than as a problem.
  - The "another word after the class_name" error is unreachable.
  - `ClassifyLineWith` takes the split count as a parameter so that the contrast with a
    two-piece split can be stated.
- **Script declarations in scenes.** `splitn(1, '"').next()` always yields the whole rest of the
  line.
  - The "no ending quote" error is unreachable.
  - The declared path keeps the closing quote and everything after it.
  - Since a resource path derived from a quote-free relative path holds no quote, no well-formed
    declaration ever links a scene to a script (`QuotedDeclarationsNeverLinkInRun`).
  - So the scene rules about scripts cannot fire on such projects.
- **Typing-scan delimiters.** The typing scan splits only on `" var "` and `"\tvar "`. A `var` at
  the very start of the text or of a line is therefore not a delimiter, and its declaration is
  scanned as part of the segment before it. Whether an untyped `var x = 0` line is flagged depends
  on whether a `:` occurs earlier in that segment.

## Left out

- `visit_dirs` is not modelled (src/main.rs:22-54). It is a recursive file-system traversal. The
  run takes the discovered and read files as its input.
- File reading in both constructors is not modelled (src/script.rs:48-50, src/scene.rs:19-21). Its
  I/O errors are not modelled either. The constructors take the contents directly.
- `Path::file_name`, `file_stem` and `to_string_lossy` are not modelled (src/script.rs:52-77,
  src/scene.rs:23-33). The file name and the stem are inputs. Their "no file name" and "no file
  stem" errors are not modelled.
- The relative-path computation by `strip_prefix` and its error are not modelled
  (src/main.rs:141-150). Each script file supplies its relative path.
- The `path` field of `Script` and `Scene` is not modelled. No modelled operation reads it.
- The hardcoded project root, the `unwrap`s on discovery, `println!` and the `dbg!` output of the
  three lists are not modelled (src/main.rs:132-139, 221-223). `Run` returns the three lists.
- Text is ASCII. Unicode `to_uppercase` and Unicode whitespace are not modelled.
  - Without UTF-8 byte boundaries, every `get(..)` on a string succeeds.
  - So the "can't get type on master node" errors (src/scene.rs:65-67, 73-75) are not modelled:
    they cannot happen on ASCII text.
  - For the same reason `get(0..2)` and `get(0..1)` (src/script.rs:58, 118) never fail on a
    non-empty prefix.
- Error messages are datatype variants that carry the file name, not the `anyhow!` text.
  - Through `LineRejected`, the parser's two error strings become variants of their own.
  - The "this shouldn't happen" error names no file in the source, so its variant
    (`NameUnderivable`) carries none.
- `Linter.SplitOnAny` requires non-empty patterns. The source only ever passes `" var "` and
  `"\tvar "`.
- `Linter.SegmentsOfOnePatternJoin` states the join round trip for one pattern only. With several
  patterns a segment boundary may come from any of them, and the segments do not record which one,
  so no single separator rejoins them.
