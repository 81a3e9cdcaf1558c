/** The status of one test, as recorders, journals and reports name it. */
module TestStatus {
  datatype Status = Started | Pass | Fail | Error | Skip | NotRun

  /** What a test can end with. */
  predicate Ended(s: Status) {
    s == Pass || s == Fail || s == Error || s == Skip
  }
}
