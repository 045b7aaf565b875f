/**
 * The issue vocabulary shared by the analyzers and the pause modal: closed
 * enumerations for category, severity and location, and the issue record.
 */
module Issues {
  import opened Wrappers

  datatype Severity = Low | Medium | High
  datatype Category = Grammar | Formatting | Tone | Context
  datatype Location = Subject | Body

  datatype Issue = Issue(
    category: Category,
    severity: Severity,
    message: string,
    evidence: Option<string>,
    location: Option<Location>,
    offset: Option<int>,
    length: Option<int>)

  /** The order high > medium > low. */
  function Rank(s: Severity): nat {
    match s
    case Low => 1
    case Medium => 2
    case High => 3
  }
}
