/** The runner: walks suites, test cases and tests in registration order,
    skips the test cases the include expression does not select, runs the
    tests of the others and aggregates their results into a fresh report. */
module Runner {
  import opened Wrappers
  import opened TestModel
  import opened Report
  import Filter

  /** A runner: the suites it was created with and the report of its most
      recent run. */
  datatype Runner = Runner(suites: seq<Suite>, report: Report)

  /** `srunner_create`: a runner over one suite that has not run yet. */
  function CreateRunner(s: Suite): (r: Runner)
    ensures r.suites == [s] && r.report == Empty
  {
    Runner([s], Empty)
  }

  /** Runs one test without process isolation and records what it did. */
  function Execute(caseName: string, fn: TestFn): (r: TestResult)
    ensures r.caseName == caseName && r.testName == fn.name
    ensures r.status.Passed? <==> fn.outcome.Pass?
    ensures r.status.Failed? ==> fn.outcome == Fail(r.status.msg)
  {
    match fn.outcome
    case Pass => TestResult(caseName, fn.name, Passed)
    case Fail(m) => TestResult(caseName, fn.name, Failed(m))
  }

  /** The results of running `tests` one after another. */
  function TestsResults(caseName: string, tests: seq<TestFn>): seq<TestResult>
  {
    if |tests| == 0 then [] else [Execute(caseName, tests[0])] + TestsResults(caseName, tests[1..])
  }

  /** The results of running every test of one test case. */
  function CaseResults(tc: TCase): seq<TestResult>
  {
    TestsResults(tc.name, tc.tests)
  }

  /** The test cases that run under `inc`, in registration order. */
  function Selected(cases: seq<TCase>, inc: Option<string>): (sel: seq<TCase>)
    ensures |sel| <= |cases|
    ensures forall i :: 0 <= i < |sel| ==> Filter.Included(sel[i].tags, inc)
  {
    if |cases| == 0 then []
    else if Filter.Included(cases[0].tags, inc) then [cases[0]] + Selected(cases[1..], inc)
    else Selected(cases[1..], inc)
  }

  /** The results of running the test cases `cases` one after another. */
  function ResultsOf(cases: seq<TCase>): seq<TestResult>
  {
    if |cases| == 0 then [] else CaseResults(cases[0]) + ResultsOf(cases[1..])
  }

  /** The results a run over `suites` under `inc` produces, in order. */
  function RunResults(suites: seq<Suite>, inc: Option<string>): seq<TestResult>
  {
    ResultsOf(Selected(AllCases(suites), inc))
  }

  /** The report of one run: its results recorded into an empty report. */
  function Run(suites: seq<Suite>, inc: Option<string>): (rep: Report)
    ensures Valid(rep)
  {
    RecordAll(Empty, RunResults(suites, inc))
  }

  /** `srunner_run` with the suite-name, case-name and exclude arguments
      NULL: the report of any earlier run is discarded and replaced. */
  function SrunnerRun(r: Runner, inc: Option<string>): (r': Runner)
    ensures r'.suites == r.suites
    ensures Valid(r'.report)
  {
    r.(report := Run(r.suites, inc))
  }

  // ---------------------------------------------------------------------
  // Structural facts about the walk.

  lemma {:induction false} TestsResultsSpec(caseName: string, tests: seq<TestFn>)
    ensures |TestsResults(caseName, tests)| == |tests|
    ensures forall j :: 0 <= j < |tests| ==> TestsResults(caseName, tests)[j] == Execute(caseName, tests[j])
    decreases |tests|
  {
    if |tests| > 0 {
      TestsResultsSpec(caseName, tests[1..]);
    }
  }

  lemma TestsResultsAppend(caseName: string, a: seq<TestFn>, b: seq<TestFn>)
    ensures TestsResults(caseName, a + b) == TestsResults(caseName, a) + TestsResults(caseName, b)
  {
    TestsResultsSpec(caseName, a + b);
    TestsResultsSpec(caseName, a);
    TestsResultsSpec(caseName, b);
  }

  lemma {:induction false} SelectedAppend(a: seq<TCase>, b: seq<TCase>, inc: Option<string>)
    ensures Selected(a + b, inc) == Selected(a, inc) + Selected(b, inc)
    decreases |a|
  {
    if |a| == 0 {
      assert a + b == b;
    } else {
      assert (a + b)[0] == a[0] && (a + b)[1..] == a[1..] + b;
      SelectedAppend(a[1..], b, inc);
    }
  }

  lemma {:induction false} ResultsOfAppend(a: seq<TCase>, b: seq<TCase>)
    ensures ResultsOf(a + b) == ResultsOf(a) + ResultsOf(b)
    decreases |a|
  {
    if |a| == 0 {
      assert a + b == b;
    } else {
      assert (a + b)[0] == a[0] && (a + b)[1..] == a[1..] + b;
      ResultsOfAppend(a[1..], b);
    }
  }

  /** Recording one more result is recording the extended list. */
  lemma RecordOneMore(base: Report, rs: seq<TestResult>, r: TestResult)
    requires Valid(base)
    ensures RecordAll(base, rs + [r]) == Record(RecordAll(base, rs), r)
  {
    RecordAllAppend(base, rs, [r]);
  }

  /** The step of the runner's walk over the test cases of one suite. */
  lemma CaseStep(base: Report, cases: seq<TCase>, j: nat, inc: Option<string>)
    requires Valid(base) && j < |cases|
    ensures Filter.Included(cases[j].tags, inc) ==>
      RecordAll(base, ResultsOf(Selected(cases[..j + 1], inc)))
        == RecordAll(RecordAll(base, ResultsOf(Selected(cases[..j], inc))), CaseResults(cases[j]))
    ensures !Filter.Included(cases[j].tags, inc) ==>
      ResultsOf(Selected(cases[..j + 1], inc)) == ResultsOf(Selected(cases[..j], inc))
  {
    assert cases[..j + 1] == cases[..j] + [cases[j]];
    SelectedAppend(cases[..j], [cases[j]], inc);
    var sel := Selected(cases[..j], inc);
    if Filter.Included(cases[j].tags, inc) {
      assert Selected([cases[j]], inc) == [cases[j]];
      ResultsOfAppend(sel, [cases[j]]);
      assert ResultsOf([cases[j]]) == CaseResults(cases[j]) + [];
      assert CaseResults(cases[j]) + [] == CaseResults(cases[j]);
      RecordAllAppend(base, ResultsOf(sel), CaseResults(cases[j]));
    } else {
      assert Selected([cases[j]], inc) == [];
      assert sel + [] == sel;
    }
  }

  /** The step of the runner's walk over the suites. */
  lemma SuiteStep(suites: seq<Suite>, i: nat, inc: Option<string>)
    requires i < |suites|
    ensures RunResults(suites[..i + 1], inc)
      == RunResults(suites[..i], inc) + ResultsOf(Selected(suites[i].cases, inc))
  {
    assert suites[..i + 1] == suites[..i] + [suites[i]];
    AllCasesAppend(suites[..i], [suites[i]]);
    assert AllCases([suites[i]]) == suites[i].cases + [];
    assert suites[i].cases + [] == suites[i].cases;
    SelectedAppend(AllCases(suites[..i]), suites[i].cases, inc);
    ResultsOfAppend(Selected(AllCases(suites[..i]), inc), Selected(suites[i].cases, inc));
  }

  /** Runs every test of one selected test case, in registration order,
      recording each result. */
  method RunCase(rep0: Report, tc: TCase) returns (rep: Report)
    requires Valid(rep0)
    ensures Valid(rep)
    ensures rep == RecordAll(rep0, CaseResults(tc))
  {
    rep := rep0;
    var k := 0;
    while k < |tc.tests|
      invariant 0 <= k <= |tc.tests|
      invariant Valid(rep)
      invariant rep == RecordAll(rep0, TestsResults(tc.name, tc.tests[..k]))
    {
      var r := Execute(tc.name, tc.tests[k]);
      assert tc.tests[..k + 1] == tc.tests[..k] + [tc.tests[k]];
      TestsResultsAppend(tc.name, tc.tests[..k], [tc.tests[k]]);
      assert TestsResults(tc.name, [tc.tests[k]]) == [r] + TestsResults(tc.name, []);
      assert TestsResults(tc.name, tc.tests[..k + 1]) == TestsResults(tc.name, tc.tests[..k]) + [r];
      RecordOneMore(rep0, TestsResults(tc.name, tc.tests[..k]), r);
      rep := Record(rep, r);
      k := k + 1;
    }
    assert tc.tests[..k] == tc.tests;
  }

  /** Walks the test cases of one suite, running those the include
      expression selects and silently skipping the others. */
  method RunCases(rep0: Report, cases: seq<TCase>, inc: Option<string>) returns (rep: Report)
    requires Valid(rep0)
    ensures Valid(rep)
    ensures rep == RecordAll(rep0, ResultsOf(Selected(cases, inc)))
  {
    rep := rep0;
    var j := 0;
    while j < |cases|
      invariant 0 <= j <= |cases|
      invariant Valid(rep)
      invariant rep == RecordAll(rep0, ResultsOf(Selected(cases[..j], inc)))
    {
      CaseStep(rep0, cases, j, inc);
      if Filter.Included(cases[j].tags, inc) {
        rep := RunCase(rep, cases[j]);
      }
      j := j + 1;
    }
    assert cases[..j] == cases;
  }

  /** The runner's loop: for each suite, for each of its test cases the
      include expression selects, run each test and record its result. It
      computes exactly the report `Run` defines. */
  method RunSuites(suites: seq<Suite>, inc: Option<string>) returns (rep: Report)
    ensures Valid(rep)
    ensures rep == Run(suites, inc)
  {
    rep := Empty;
    var i := 0;
    while i < |suites|
      invariant 0 <= i <= |suites|
      invariant Valid(rep)
      invariant rep == RecordAll(Empty, RunResults(suites[..i], inc))
    {
      rep := RunCases(rep, suites[i].cases, inc);
      SuiteStep(suites, i, inc);
      RecordAllAppend(Empty, RunResults(suites[..i], inc), ResultsOf(Selected(suites[i].cases, inc)));
      i := i + 1;
    }
    assert suites[..i] == suites;
  }
}
