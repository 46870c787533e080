/** The records kept by the test manager (internal/libhive/data.go). */
module Records {
  import opened Wrappers

  /** A byte range of a log file. */
  datatype LogRange = LogRange(begin: int, end: int)

  datatype TestResult = TestResult(pass: bool, timeout: bool, details: string, log: Option<LogRange>)

  /** `waiting` says that the record still holds the container's wait function, that is, that
      this record owns the container and must stop it. */
  datatype ClientInfo = ClientInfo(id: string, name: string, logFile: string,
                                   logOffsets: Option<LogRange>, waiting: bool)

  /** The details file handle of a suite: absent without a log directory, unusable once closed. */
  datatype DetailsFile = NoFile | Open | Closed

  /** The value of a TestSuite object. `log` is the content of its details file on disk. */
  datatype SuiteRec = SuiteRec(name: string, tests: set<nat>, file: DetailsFile, offset: nat, log: string)

  /** The value of a TestCase object. */
  datatype CaseRec = CaseRec(name: string, result: TestResult, clients: map<string, ClientInfo>, multi: bool)

  /** The zero value that a test case carries until it is ended. */
  const NO_RESULT := TestResult(false, false, "", None)
}
