# Tag-based test selection and run reports in Check

This project models the part of the Check unit-test framework for C that
`tests/check_check_tags.c` exercises: a suite of test cases carrying tag
sets, a runner that selects test cases by an include tag expression, runs
their tests without process isolation (`CK_NOFORK`), and a run report made of
the run count, the failed count and the ordered list of failure records,
each carrying the message its failing assertion gave.

The library code behind `srunner_run`, `tcase_create_tagged` and the result
accessors is not part of this model. The model is a specification of the
behaviour the test file asserts. Tag strings are read as whitespace-separated
tokens, and a present include expression selects the cases sharing at least
one token with it; the test's "Red" run, which selects the case tagged
"Red Blue", is the instance of this rule the file pins down.

Modules:

- `Wrappers` — `Option`, standing for a possibly-NULL string argument.
- `Tags` — tokenising a tag string, joining tokens back, normalisation.
- `TestModel` — `Suite`, `TCase`, `TestFn` and the builders `suite_create`,
  `suite_add_tcase`, `tcase_create`, `tcase_create_tagged`, `tcase_add_test`.
- `Filter` — whether a tag set is selected by an include expression.
- `Report` — result records and the incremental aggregator.
- `Runner` — the run: selection, execution, aggregation; `RunSuites` is the
  loop form, proved equal to the functional definition `Run`.
- `Subseq` — the subsequence relation used to state order preservation.
- `RunProperties` — general properties of every run.
- `TagFixture` — `make_tagged_suite` and the three runs `no_filter`,
  `inc_yellow` and `inc_red`, proved as concrete scenarios.

## Model

| member | source | states |
|---|---|---|
| TestModel.CreateCase | tests/check_check_tags.c:89 | `tcase_create` gives a case with the given name, no tags and no tests |
| TestModel.CreateTaggedCase | tests/check_check_tags.c:73 | `tcase_create_tagged` gives a case whose tag set holds exactly the tokens of its tag string, and no tests |
| TestModel.AddTest | tests/check_check_tags.c:75 | `tcase_add_test` appends the test after those already registered, leaving them, the name and the tags unchanged |
| TestModel.CreateSuite | tests/check_check_tags.c:71 | `suite_create` gives a named suite with no cases |
| TestModel.AddCase | tests/check_check_tags.c:74 | `suite_add_tcase` appends the case after those already registered, leaving them unchanged |
| Tags.Tokenise | tests/check_check_tags.c:73-81 | a tag string denotes a set of well-formed tags; which set is stated by `Tags.TokeniseJoin`, `Tags.TokensSplit` and `Tags.BlankHasNoTokens` |
| Tags.TokensSplit | tests/check_check_tags.c:73-81 | a tag string splits at every `isspace` character: the tokens before and after it are read independently, so leading, trailing and repeated white space give no empty token; the file uses single spaces only |
| Tags.TabSeparatedTags | tests/check_check_tags.c:81 | "Red\tBlue" and " Red  Blue " have the tokens Red and Blue, as "Red Blue" does |
| Tags.NormalizeTrimsAndCollapses | tests/check_check_tags.c:81 | normalisation trims outer white space and collapses runs of it, tabs included, to one space: " Red  Blue " and "Red\tBlue" both normalise to "Red Blue" |
| Tags.TokensOfJoin | tests/check_check_tags.c:81 | tags written out separated by single spaces, as in "Red Blue", tokenise back to exactly those tags in order |
| Tags.BlankHasNoTokens | tests/check_check_tags.c:73-81 | a tag string of white space only, the empty one included, denotes the empty tag set; the file passes no such string, so this follows from reading its tag strings as token lists |
| Tags.TokeniseSingle | tests/check_check_tags.c:73 | a single tag such as "Red" is a tag string whose only token is itself |
| Tags.TokeniseJoin | tests/check_check_tags.c:81 | tags joined by single spaces, as in "Red Blue", denote exactly the set of those tags |
| Tags.NormalizeKeepsTokens | tests/check_check_tags.c:73-81 | the normalised form of a tag string has the same tokens and the same tag set; the file's tag strings are already normal, so it does not exercise this |
| Tags.NormalizeIdempotent | tests/check_check_tags.c:73-81 | normalising a tag string twice is the same as normalising it once; not exercised by the file, whose tag strings are already normal |
| Tags.RepeatedTokensSameSet | tests/check_check_tags.c:73-81 | two tag strings listing the same tags, in any order and with any repetition, denote the same tag set; the file writes no repeated tag, so it does not exercise this |
| Tags.TripleRedIsRed | tests/check_check_tags.c:73 | "Red Red Red" denotes the same tag set as "Red", namely {Red}; not exercised by the file |
| Filter.Included | tests/check_check_tags.c:189 | the include check applied to each case: no include expression selects every case; with one, the selection rule is stated by `Filter.IncludedIffSharedToken` |
| Filter.IncludedIffSharedToken | tests/check_check_tags.c:246 | a present include expression selects a case if and only if one of its tokens is among the case's tags |
| Filter.UntaggedOnlyWithoutFilter | tests/check_check_tags.c:89 | a case created without tags is selected if and only if no include expression is given |
| Filter.SingleTagInclude | tests/check_check_tags.c:229-234 | matching is per tag: include of one tag selects a case if and only if that tag is in the case's tag set |
| Filter.BlankIncludeSelectsNothing | tests/check_check_tags.c:189 | a present but blank include expression selects no case at all; the file only passes "Yellow" and "Red", so it does not exercise this |
| Filter.RepeatedIncludeTokens | tests/check_check_tags.c:246 | two include expressions listing the same tags, in any order and with any repetition, select the same cases; the file only passes "Red" here, so it does not exercise this |
| Filter.NormalizedIncludeSame | tests/check_check_tags.c:189 | an include expression selects the same cases as its normalised form; "Yellow" is already normal, so the file does not exercise this |
| Report.Messages | tests/check_check_tags.c:148-152 | the messages read off a failure list with `tr_msg`, one per record, in list order |
| Report.Record | tests/check_check_tags.c:136-146 | recording a result adds one to the run count and, for a failure, one to the failed count and the record to the end of the failure list; the counts and list stay consistent |
| Report.RecordAllSpec | tests/check_check_tags.c:136-146 | recording a list of results adds its length to the run count and appends its failures, in order, to the failure list and their number to the failed count |
| Report.FailuresOfSound | tests/check_check_tags.c:146 | the failure list holds only failing records drawn from the results, and is no longer than them |
| Report.FailuresOfComplete | tests/check_check_tags.c:141-146 | every failing result is in the failure list, the converse of `FailuresOfSound` |
| Report.FailuresOfAllFailed | tests/check_check_tags.c:141-146 | when every result is a failure, the failure list is the whole result list |
| Runner.CreateRunner | tests/check_check_tags.c:103 | `srunner_create` gives a runner over the one suite with an empty report |
| Runner.Execute | tests/check_check_tags.c:34-37 | a test's record names its case and test, passes exactly when the test passes, and a failure carries the assertion's message |
| Runner.Selected | tests/check_check_tags.c:189 | the cases a run selects, in registration order: never more than registered, and each passes the include check; membership both ways is stated by `RunProperties.SelectedIff` |
| Runner.Run | tests/check_check_tags.c:134 | the report of a run over the suites under an include expression is consistent; its counts and failure list are stated by `RunProperties.RunReportSpec` |
| Runner.SrunnerRun | tests/check_check_tags.c:134 | `srunner_run` keeps the runner's suites and leaves a consistent report |
| Runner.RunCase | tests/check_check_tags.c:134 | the loop over a selected case's tests records exactly that case's results, in registration order |
| Runner.RunCases | tests/check_check_tags.c:189 | the loop over a suite's cases records the results of the selected cases only, in registration order, skipping the rest silently |
| Runner.RunSuites | tests/check_check_tags.c:134 | the runner's nested loop over suites, selected cases and their tests computes exactly the run's report, which is consistent |
| RunProperties.RunReportSpec | tests/check_check_tags.c:136-146 | the run count is the number of tests run, the failure list is their failing results in execution order, and the failed count is its length, at most the run count |
| RunProperties.SelectedIff | tests/check_check_tags.c:189 | a case takes part in a run if and only if it is registered and the include expression selects its tags |
| RunProperties.NoFilterRunsAll | tests/check_check_tags.c:134-139 | with no include expression every registered test runs, so the run count is the number of registered tests |
| RunProperties.AllFailingFailsAll | tests/check_check_tags.c:141-149 | when every test fails, the failed count equals the run count and every result is in the failure list |
| RunProperties.FilterKeepsOrder | tests/check_check_tags.c:259-266 | the failure list of a filtered run is the unfiltered failure list with entries removed, never reordered |
| RunProperties.FailureTraceable | tests/check_check_tags.c:148-152 | every failure record comes from a registered test of a selected case, named after them, and carries exactly that test's failure message |
| RunProperties.ResultsOfComplete | tests/check_check_tags.c:134-139 | running test cases produces the result of every test registered in them |
| RunProperties.FailureReported | tests/check_check_tags.c:246-266 | every failing test of a registered case that the include expression selects appears in the failure list, the converse of `FailureTraceable` |
| RunProperties.RunDiscardsEarlierReport | tests/check_check_tags.c:303-310 | a second run on the same runner reports as if the first had not happened; this is the runner's intended behaviour, which these lines rely on only when the tests share one runner (see "## Left out") |
| TagFixture.PurpleTags | tests/check_check_tags.c:81 | the tag string "Red Blue" denotes the tag set {Red, Blue} |
| TagFixture.MakeTaggedSuite | tests/check_check_tags.c:65-94 | `make_tagged_suite` gives the suite "Check Tag Filtering" holding five cases; their names, tags and tests are stated by `TagFixture.TaggedSuiteCases` |
| TagFixture.TaggedSuiteCases | tests/check_check_tags.c:65-94 | `make_tagged_suite` registers Red, Blue, Purple, Yellow and Black in that order, with tag sets {Red}, {Blue}, {Red, Blue}, {Yellow} and {}, each with its one test |
| TagFixture.FixtureCasesBuilt | tests/check_check_tags.c:73-91 | each `tcase_create_tagged`/`tcase_create` plus `tcase_add_test` pair builds the expected case, e.g. "Red Blue" gives the tag set {Red, Blue} |
| TagFixture.SuiteBuilt | tests/check_check_tags.c:71-91 | adding the five cases one after another registers them in that order |
| TagFixture.FixtureShape | tests/check_check_tags.c:34-94 | a runner over a suite holding the five fixture cases walks them in registration order, and every test in them fails |
| TagFixture.SingleTestCase | tests/check_check_tags.c:75 | a case holding one test produces exactly that test's record |
| TagFixture.FixtureResults | tests/check_check_tags.c:34-62 | running the fixture's cases yields one failure record per case, with messages "Red fail" … "Black fail" |
| TagFixture.FixtureMessages | tests/check_check_tags.c:118-122 | the messages read off the fixture's failure records are "Red fail" … "Black fail" in list order |
| TagFixture.SelectionByOneTag | tests/check_check_tags.c:73-91 | which of the five cases an include of one tag selects: Purple for Red or Blue, Black for none |
| TagFixture.FixtureSelection | tests/check_check_tags.c:229-234 | include "Yellow" selects the Yellow case only; include "Red" selects Red and Purple, in that order |
| TagFixture.NoFilterScenario | tests/check_check_tags.c:116-171 | on a suite holding the five fixture cases (as `make_tagged_suite`'s does), with no filter: 5 run, 5 fail, messages Red, Blue, Purple, Yellow, Black fail in that order |
| TagFixture.IncludeYellowScenario | tests/check_check_tags.c:176-227 | on the same suite, include "Yellow": 1 run, 1 fails, message "Yellow fail" |
| TagFixture.IncludeRedScenario | tests/check_check_tags.c:232-287 | on the same suite, include "Red": 2 run, 2 fail, messages "Red fail" then "Purple fail" |
| TagFixture.SharedRunnerScenario | tests/check_check_tags.c:303-310 | the runner shared by `inc_yellow` and `inc_red` reports 2 runs, 2 failures and the Red, Purple messages on its second run |
| TagFixture.TaggedSuiteScenarios | tests/check_check_tags.c:102-287 | on the suite `make_tagged_suite` returns: no filter runs and fails 5 with the five messages in order, include "Yellow" runs 1 with "Yellow fail", include "Red" runs 2 with "Red fail" then "Purple fail" |

## Left out

- Exclude expressions: the exclude argument of `srunner_run` is NULL in every call and no exclude test exists, so the model has no exclude filter.
- The two arguments of `srunner_run` before the include expression (a suite name and a test-case name to restrict the run to): NULL in every call, so not modelled.
- Runner.SrunnerRun: its own contract states only that the suites are kept and the new report is consistent; that the new report replaces the old one is stated by RunProperties.RunDiscardsEarlierReport.
- Fork mode, process isolation, the error status for crashed tests and timeouts: the runner is set to `CK_NOFORK`, so a test either returns or fails an assertion.
- Unchecked fixtures and runner lifecycle (`tag_test_setup`, `tag_test_teardown`, `srunner_free`) beyond the fact that one runner serves both include tests; memory management has no counterpart in a value model.
- That a run discards the previous report (`RunProperties.RunDiscardsEarlierReport`) is the runner's intended behaviour, not something this file shows: lines 303-310 only make `inc_yellow` and `inc_red` share one unchecked fixture, and whether `inc_red` sees the runner after `inc_yellow`'s run depends on the isolation mode of the outer runner, set outside this file; in isolated mode each test gets its own copy of the freshly set-up runner.
- `escape_percent` and the `snprintf`/`ck_abort_msg` diagnostic path: defined outside this file and concerned with printf formatting only.
- Output verbosity (`CK_VERBOSE`) and the `START_TEST`/`END_TEST` macros.
- printf expansion of assertion messages: `ck_assert_msg` (lines 36-60) treats its message as a printf format and stores the expanded text, so a `%` in it is not kept byte for byte; a failure's message in the model is the expanded text, and the fixture's messages contain no conversion.
- Message truncation to the framework's maximum message length: the messages here are short, so a stored message is the assertion's message unchanged.
- The library's tokeniser is not part of this model; the model splits tag strings on the C `isspace` characters (space, tab, newline, carriage return, vertical tab, form feed), as `Tags.TokensSplit` states, and the tag strings in this file are separated by single spaces only, so any whitespace-splitting rule reads them alike.
