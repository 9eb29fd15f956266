/** The problems the linter reports. Every problem but one names the file (`full_name`)
    it is about; the one that does not mirrors a source message that names no file. */
module Problems {

  /** The errors of the header-line parser; with the source's split count only the second is reachable. */
  datatype LineError = WordAfterClassNameWithoutExtends | WordAfterExtends

  datatype Issue =
    // construction of a script
    | LineRejected(error: LineError)
    | MultipleClassNames
    | MultipleExtends
    // construction of a scene
    | NoEndingQuoteOnScriptPath
    | NoTypeOnMasterNode
    | NoEndOfTypeOnMasterNode
    | NoMasterNode
    // script rules
    | NotUpperCamelCase
    | ContainsDollar
    | NotStaticallyTyped
    | ExtendsNotNode
    | ExtendsNothing
    | NonExportVar
    | ClassNameMismatch
    | NoClassName
    | ReferenceHasClassName
    // scene rules
    | HasChildrenAndScript
    | MasterNotNodeType
    | TypedScriptNotOnNode
    | ReferenceScriptOnMaster

  datatype Problem =
    | Problem(file: string, issue: Issue)
    /** A Value or Reference script whose file stem is shorter than its two-character prefix. */
    | NameUnderivable

  /** The result of one rule check: `Ok(())` or the first error. */
  datatype Outcome = Pass | Fail(problem: Problem)

  datatype Result<T> = Ok(value: T) | Err(problem: Problem)
}
