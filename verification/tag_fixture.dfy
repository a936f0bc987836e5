/** The tag-filtering fixture of tests/check_check_tags.c: one suite of five
    single-test cases whose tests all fail, and the three runs made on it. */
module TagFixture {
  import opened Wrappers
  import opened TestModel
  import opened Report
  import opened Runner
  import Tags
  import Filter
  import RunProperties

  // Each test body is a single failing assertion with a fixed message.
  const RedTest: TestFn := TestFn("red_test1", Fail("Red fail"))
  const BlueTest: TestFn := TestFn("blue_test1", Fail("Blue fail"))
  const PurpleTest: TestFn := TestFn("purple_test1", Fail("Purple fail"))
  const YellowTest: TestFn := TestFn("yellow_test1", Fail("Yellow fail"))
  const BlackTest: TestFn := TestFn("black_test1", Fail("Black fail"))

  /** `make_tagged_suite`. The C code adds each test case to the suite and
      then adds the test to it through the same `TCase` handle; with values, the
      test is added first and the finished case appended. */
  function MakeTaggedSuite(): (s: Suite)
    ensures s.name == "Check Tag Filtering"
    ensures |s.cases| == 5
  {
    var s := CreateSuite("Check Tag Filtering");
    var s := AddCase(s, AddTest(CreateTaggedCase("Red", "Red"), RedTest));
    var s := AddCase(s, AddTest(CreateTaggedCase("Blue", "Blue"), BlueTest));
    var s := AddCase(s, AddTest(CreateTaggedCase("Purple", "Red Blue"), PurpleTest));
    var s := AddCase(s, AddTest(CreateTaggedCase("Yellow", "Yellow"), YellowTest));
    AddCase(s, AddTest(CreateCase("Black"), BlackTest))
  }

  const Red: TCase := TCase("Red", {"Red"}, [RedTest])
  const Blue: TCase := TCase("Blue", {"Blue"}, [BlueTest])
  const Purple: TCase := TCase("Purple", {"Red", "Blue"}, [PurpleTest])
  const Yellow: TCase := TCase("Yellow", {"Yellow"}, [YellowTest])
  const Black: TCase := TCase("Black", {}, [BlackTest])

  /** The cases of the fixture suite, in registration order. */
  const FixtureCases: seq<TCase> := [Red, Blue, Purple, Yellow, Black]

  /** The tag string "Red Blue" denotes the two tags Red and Blue. */
  lemma PurpleTags()
    ensures Tags.Tokenise("Red Blue") == {"Red", "Blue"}
  {
    assert Tags.AllTags(["Red", "Blue"]);
    assert Tags.Join(["Red", "Blue"]) == "Red Blue";
    Tags.TokensOfJoin(["Red", "Blue"]);
  }

  /** The cases `make_tagged_suite` builds, with their tag sets worked out. */
  lemma TaggedSuiteCases()
    ensures MakeTaggedSuite() == Suite("Check Tag Filtering", FixtureCases)
  {
    UnfoldTaggedSuite();
    FixtureCasesBuilt();
    SuiteBuilt();
  }

  /** `make_tagged_suite` as one builder expression. */
  lemma UnfoldTaggedSuite()
    ensures MakeTaggedSuite() == AddCase(AddCase(AddCase(AddCase(AddCase(CreateSuite("Check Tag Filtering"),
              AddTest(CreateTaggedCase("Red", "Red"), RedTest)),
              AddTest(CreateTaggedCase("Blue", "Blue"), BlueTest)),
              AddTest(CreateTaggedCase("Purple", "Red Blue"), PurpleTest)),
              AddTest(CreateTaggedCase("Yellow", "Yellow"), YellowTest)),
              AddTest(CreateCase("Black"), BlackTest))
  {
  }

  /** Appending the five cases in turn registers them in that order. */
  lemma SuiteBuilt()
    ensures AddCase(AddCase(AddCase(AddCase(AddCase(CreateSuite("Check Tag Filtering"), Red), Blue), Purple), Yellow), Black)
         == Suite("Check Tag Filtering", [Red, Blue, Purple, Yellow, Black])
  {
    var s1 := AddCase(CreateSuite("Check Tag Filtering"), Red);
    var s2 := AddCase(s1, Blue);
    var s3 := AddCase(s2, Purple);
    var s4 := AddCase(s3, Yellow);
    assert s1.cases == [Red];
    assert s2.cases == [Red, Blue];
    assert s3.cases == [Red, Blue, Purple];
    assert s4.cases == [Red, Blue, Purple, Yellow];
    assert AddCase(s4, Black).cases == [Red, Blue, Purple, Yellow, Black];
  }

  /** Each case `make_tagged_suite` builds, with its tag set worked out. */
  lemma FixtureCasesBuilt()
    ensures AddTest(CreateTaggedCase("Red", "Red"), RedTest) == Red
    ensures AddTest(CreateTaggedCase("Blue", "Blue"), BlueTest) == Blue
    ensures AddTest(CreateTaggedCase("Purple", "Red Blue"), PurpleTest) == Purple
    ensures AddTest(CreateTaggedCase("Yellow", "Yellow"), YellowTest) == Yellow
    ensures AddTest(CreateCase("Black"), BlackTest) == Black
  {
    Tags.TokeniseSingle("Red");
    Tags.TokeniseSingle("Blue");
    Tags.TokeniseSingle("Yellow");
    PurpleTags();
  }

  /** The fixture registers the five cases in the order Red, Blue, Purple,
      Yellow, Black, each with its tag set and its one failing test. */
  lemma FixtureShape(s: Suite)
    requires s.cases == FixtureCases
    ensures AllCases([s]) == [Red, Blue, Purple, Yellow, Black]
    ensures AllFail(AllCases([s]))
  {
    OneSuiteCases(s);
    FixtureAllFail();
  }

  /** A runner over one suite walks exactly that suite's cases. */
  lemma OneSuiteCases(s: Suite)
    ensures AllCases([s]) == s.cases
  {
    assert [s][0] == s && [s][1..] == [];
    assert AllCases([s]) == s.cases + AllCases([]);
    assert s.cases + [] == s.cases;
  }

  /** Every test of the five fixture cases fails. */
  lemma FixtureAllFail()
    ensures AllFail([Red, Blue, Purple, Yellow, Black])
  {
    var cases := [Red, Blue, Purple, Yellow, Black];
    forall i, j | 0 <= i < |cases| && 0 <= j < |cases[i].tests|
      ensures cases[i].tests[j].outcome.Fail?
    {
      assert |cases[i].tests| == 1;
    }
  }

  // The failure records the five fixture tests produce.
  const RedResult: TestResult := TestResult("Red", "red_test1", Failed("Red fail"))
  const BlueResult: TestResult := TestResult("Blue", "blue_test1", Failed("Blue fail"))
  const PurpleResult: TestResult := TestResult("Purple", "purple_test1", Failed("Purple fail"))
  const YellowResult: TestResult := TestResult("Yellow", "yellow_test1", Failed("Yellow fail"))
  const BlackResult: TestResult := TestResult("Black", "black_test1", Failed("Black fail"))

  /** A case with a single test produces that test's one result. */
  lemma SingleTestCase(tc: TCase)
    requires |tc.tests| == 1
    ensures CaseResults(tc) == [Execute(tc.name, tc.tests[0])]
  {
    TestsResultsSpec(tc.name, tc.tests);
  }

  /** Running a case in front of others puts its results first. */
  lemma ResultsOfCons(tc: TCase, rest: seq<TCase>)
    ensures ResultsOf([tc] + rest) == CaseResults(tc) + ResultsOf(rest)
  {
    assert ([tc] + rest)[0] == tc && ([tc] + rest)[1..] == rest;
  }

  /** Selection decides on the first case, then on the rest. */
  lemma SelectedCons(tc: TCase, rest: seq<TCase>, inc: Option<string>)
    ensures Filter.Included(tc.tags, inc) ==> Selected([tc] + rest, inc) == [tc] + Selected(rest, inc)
    ensures !Filter.Included(tc.tags, inc) ==> Selected([tc] + rest, inc) == Selected(rest, inc)
  {
    assert ([tc] + rest)[0] == tc && ([tc] + rest)[1..] == rest;
  }

  /** The cases of the fixture an include expression of one tag selects. */
  lemma FixtureSelection(w: string)
    requires Tags.IsTag(w)
    ensures w == "Yellow" ==> Selected([Red, Blue, Purple, Yellow, Black], Some(w)) == [Yellow]
    ensures w == "Red" ==> Selected([Red, Blue, Purple, Yellow, Black], Some(w)) == [Red, Purple]
  {
    var inc := Some(w);
    SelectionByOneTag(w);
    SelectedCons(Black, [], inc);
    SelectedCons(Yellow, [Black], inc);
    SelectedCons(Purple, [Yellow, Black], inc);
    SelectedCons(Blue, [Purple, Yellow, Black], inc);
    SelectedCons(Red, [Blue, Purple, Yellow, Black], inc);
    assert [Red] + [Blue, Purple, Yellow, Black] == [Red, Blue, Purple, Yellow, Black];
    assert [Blue] + [Purple, Yellow, Black] == [Blue, Purple, Yellow, Black];
    assert [Purple] + [Yellow, Black] == [Purple, Yellow, Black];
    assert [Yellow] + [Black] == [Yellow, Black];
    assert [Black] + [] == [Black];
  }

  /** The results of running the fixture's cases, all of them or the ones
      the two include expressions select. */
  lemma FixtureResults()
    ensures ResultsOf([Red, Blue, Purple, Yellow, Black])
         == [RedResult, BlueResult, PurpleResult, YellowResult, BlackResult]
    ensures ResultsOf([Yellow]) == [YellowResult]
    ensures ResultsOf([Red, Purple]) == [RedResult, PurpleResult]
  {
    SingleTestCase(Red);
    SingleTestCase(Blue);
    SingleTestCase(Purple);
    SingleTestCase(Yellow);
    SingleTestCase(Black);
    ResultsOfCons(Black, []);
    ResultsOfCons(Yellow, [Black]);
    ResultsOfCons(Purple, [Yellow, Black]);
    ResultsOfCons(Blue, [Purple, Yellow, Black]);
    ResultsOfCons(Red, [Blue, Purple, Yellow, Black]);
    ResultsOfCons(Yellow, []);
    ResultsOfCons(Purple, []);
    ResultsOfCons(Red, [Purple]);
    assert [Red] + [Blue, Purple, Yellow, Black] == [Red, Blue, Purple, Yellow, Black];
    assert [Red] + [Purple] == [Red, Purple];
  }

  /** `no_filter`, on a suite registering the five fixture cases, as the one
      `make_tagged_suite` builds does (`TaggedSuiteCases`): with neither an
      include nor an exclude expression all five tests run, all five fail,
      and the failure messages come in registration order. */
  lemma NoFilterScenario(s: Suite)
    requires s.cases == FixtureCases
    ensures Run([s], None).nRun == 5
    ensures Run([s], None).nFailed == 5
    ensures Messages(Run([s], None).failures)
         == ["Red fail", "Blue fail", "Purple fail", "Yellow fail", "Black fail"]
  {
    var suites := [s];
    var expected := [RedResult, BlueResult, PurpleResult, YellowResult, BlackResult];
    FixtureShape(s);
    RunProperties.NoFilterRunsAll(suites);
    FixtureResults();
    assert RunResults(suites, None) == expected;
    RunProperties.RunReportSpec(suites, None);
    RunProperties.AllFailingFailsAll(suites, None);
    assert Run(suites, None).failures == expected;
    FixtureMessages();
  }

  /** The messages `tr_msg` reads off the fixture's failure records. */
  lemma FixtureMessages()
    ensures Messages([RedResult, BlueResult, PurpleResult, YellowResult, BlackResult])
         == ["Red fail", "Blue fail", "Purple fail", "Yellow fail", "Black fail"]
    ensures Messages([YellowResult]) == ["Yellow fail"]
    ensures Messages([RedResult, PurpleResult]) == ["Red fail", "Purple fail"]
  {
  }

  /** Which fixture cases an include expression of one tag selects. */
  lemma SelectionByOneTag(w: string)
    requires Tags.IsTag(w)
    ensures Filter.Included(Red.tags, Some(w)) <==> w == "Red"
    ensures Filter.Included(Blue.tags, Some(w)) <==> w == "Blue"
    ensures Filter.Included(Purple.tags, Some(w)) <==> w == "Red" || w == "Blue"
    ensures Filter.Included(Yellow.tags, Some(w)) <==> w == "Yellow"
    ensures !Filter.Included(Black.tags, Some(w))
  {
    Filter.SingleTagInclude(Red.tags, w);
    Filter.SingleTagInclude(Blue.tags, w);
    Filter.SingleTagInclude(Purple.tags, w);
    Filter.SingleTagInclude(Yellow.tags, w);
    Filter.UntaggedOnlyWithoutFilter(Some(w));
  }

  /** `inc_yellow`, on a suite registering the five fixture cases: include
      "Yellow" selects only the Yellow case, so one test runs and fails,
      with message "Yellow fail". */
  lemma IncludeYellowScenario(s: Suite)
    requires s.cases == FixtureCases
    ensures Run([s], Some("Yellow")).nRun == 1
    ensures Run([s], Some("Yellow")).nFailed == 1
    ensures Messages(Run([s], Some("Yellow")).failures) == ["Yellow fail"]
  {
    var suites := [s];
    var inc := Some("Yellow");
    FixtureShape(s);
    FixtureSelection("Yellow");
    FixtureResults();
    RunProperties.RunReportSpec(suites, inc);
    RunProperties.AllFailingFailsAll(suites, inc);
    assert Run(suites, inc).failures == [YellowResult];
    FixtureMessages();
  }

  /** `inc_red`, on a suite registering the five fixture cases: include "Red"
      matches by tag, not by whole tag string, so it selects Red ("Red") and
      Purple ("Red Blue"): two tests run and fail, and the failures keep
      registration order, Red before Purple. */
  lemma IncludeRedScenario(s: Suite)
    requires s.cases == FixtureCases
    ensures Run([s], Some("Red")).nRun == 2
    ensures Run([s], Some("Red")).nFailed == 2
    ensures Messages(Run([s], Some("Red")).failures) == ["Red fail", "Purple fail"]
  {
    var suites := [s];
    var inc := Some("Red");
    FixtureShape(s);
    FixtureSelection("Red");
    FixtureResults();
    RunProperties.RunReportSpec(suites, inc);
    RunProperties.AllFailingFailsAll(suites, inc);
    assert Run(suites, inc).failures == [RedResult, PurpleResult];
    FixtureMessages();
  }

  /** The unchecked fixture builds one runner for the "include tags" case,
      and `inc_yellow` and `inc_red` both run on it, in that order: the
      second run's report is that of include "Red" alone. */
  lemma SharedRunnerScenario(s: Suite)
    requires s.cases == FixtureCases
    ensures SrunnerRun(SrunnerRun(CreateRunner(s), Some("Yellow")), Some("Red")).report.nRun == 2
    ensures SrunnerRun(SrunnerRun(CreateRunner(s), Some("Yellow")), Some("Red")).report.nFailed == 2
    ensures Messages(SrunnerRun(SrunnerRun(CreateRunner(s), Some("Yellow")), Some("Red")).report.failures)
         == ["Red fail", "Purple fail"]
  {
    RunProperties.RunDiscardsEarlierReport(CreateRunner(s), Some("Yellow"), Some("Red"));
    IncludeRedScenario(s);
  }

  /** The three runs on the suite `make_tagged_suite` itself returns. */
  lemma TaggedSuiteScenarios()
    ensures Run([MakeTaggedSuite()], None).nRun == 5
    ensures Run([MakeTaggedSuite()], None).nFailed == 5
    ensures Messages(Run([MakeTaggedSuite()], None).failures)
         == ["Red fail", "Blue fail", "Purple fail", "Yellow fail", "Black fail"]
    ensures Run([MakeTaggedSuite()], Some("Yellow")).nRun == 1
    ensures Messages(Run([MakeTaggedSuite()], Some("Yellow")).failures) == ["Yellow fail"]
    ensures Run([MakeTaggedSuite()], Some("Red")).nRun == 2
    ensures Messages(Run([MakeTaggedSuite()], Some("Red")).failures) == ["Red fail", "Purple fail"]
  {
    TaggedSuiteCases();
    var s := MakeTaggedSuite();
    NoFilterScenario(s);
    IncludeYellowScenario(s);
    IncludeRedScenario(s);
  }
}
