/**
 * A test case of the ATF interface: the test program it belongs to, its name
 * and metadata, and, for a synthetic case, the result it stands for.
 */
module TestCases {
  import opened Wrappers
  import opened CaseMetadata
  import Properties
  import opened ConfigTrees
  import Requirements

  /** The program a test case belongs to; only its suite name matters to the
      requirement check. */
  datatype TestProgram = TestProgram(interfaceName: string, binary: string, root: string, suiteName: string)

  datatype ResultKind = Passed | Failed | Skipped | ExpectedFailure | Broken

  datatype TestResult = TestResult(kind: ResultKind, reason: string)

  /** A notification from the executor that the test wrote to one of its
      output streams, stored in the file at `path`. */
  datatype HookCall = GotStdout(path: string) | GotStderr(path: string)

  /** What running a test case gives: its result and the output
      notifications delivered on the way. */
  datatype RunOutcome = RunOutcome(result: TestResult, hookCalls: seq<HookCall>)

  /** A real test case has no `fakeResult`; a synthetic one carries the
      result that running it returns. */
  datatype TestCase = TestCase(
    program: TestProgram,
    name: string,
    metadata: Metadata,
    fakeResult: Option<TestResult>)

  /** A real test case built from the properties its program reported. */
  function FromProperties(program: TestProgram, name: string, props: Properties.PropertyMap)
    : (r: Result<TestCase, FormatError>)
    ensures r.Ok? <==> Properties.FromProperties(props).Ok?
    ensures r.Ok? ==> r.value == TestCase(program, name, Properties.FromProperties(props).value, None)
    ensures r.Err? ==> r.error == Properties.FromProperties(props).error
  {
    match Properties.FromProperties(props)
    case Ok(md) => Ok(TestCase(program, name, md, None))
    case Err(e) => Err(e)
  }

  /** A synthetic test case: default metadata apart from its description. */
  function Fake(program: TestProgram, name: string, description: string, result: TestResult): TestCase {
    TestCase(program, name, Defaults().(description := description), Some(result))
  }

  function Description(tc: TestCase): string {
    tc.metadata.description
  }

  /** The canonical property map of the test case's metadata. */
  function AllProperties(tc: TestCase): Properties.PropertyMap {
    Properties.AllProperties(tc.metadata)
  }

  /** The requirement check of the test case against the suite of its
      program. */
  function CheckRequirements(tc: TestCase, config: Settings, host: Requirements.Host): (reason: string)
    ensures reason == "" <==> Requirements.Satisfied(tc.metadata, tc.program.suiteName, config, host)
  {
    Requirements.CheckRequirements(tc.metadata, tc.program.suiteName, config, host)
  }

  /** Runs the test case; `executed` is what the external executor would
      report for a real case, and is ignored for a synthetic one. */
  function Run(tc: TestCase, executed: RunOutcome): RunOutcome {
    match tc.fakeResult
    case Some(result) => RunOutcome(result, [])
    case None => executed
  }

  /** A synthetic case keeps what it was built from. */
  lemma FakeGetters(program: TestProgram, name: string, description: string, result: TestResult)
    ensures var tc := Fake(program, name, description, result);
      tc.program == program && tc.name == name && Description(tc) == description
  {
  }

  /** Running a synthetic case returns its stored result and delivers no
      output notification, whatever the executor would have done. */
  lemma FakeRunIsSilent(program: TestProgram, name: string, description: string, result: TestResult,
                        executed: RunOutcome)
    ensures Run(Fake(program, name, description, result), executed) == RunOutcome(result, [])
  {
  }

  /** A synthetic case requires nothing, so it may always run. */
  lemma FakeRequiresNothing(program: TestProgram, name: string, description: string, result: TestResult,
                            config: Settings, host: Requirements.Host)
    ensures CheckRequirements(Fake(program, name, description, result), config, host) == ""
  {
    Requirements.NothingRequired(program.suiteName, config, host);
  }

  /** A real case runs exactly as the executor reports. */
  lemma RealRunDelegates(tc: TestCase, executed: RunOutcome)
    requires tc.fakeResult.None?
    ensures Run(tc, executed) == executed
  {
  }

  /** Parsing the properties of a real case gives back its metadata. */
  lemma PropertiesRoundTrip(tc: TestCase)
    requires WellFormed(tc.metadata) && tc.fakeResult.None?
    ensures FromProperties(tc.program, tc.name, AllProperties(tc)) == Ok(tc)
  {
    Properties.RoundTrip(tc.metadata);
  }
}
