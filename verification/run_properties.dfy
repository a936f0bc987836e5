/** General properties of a run: what is selected, how many tests run and
    fail, the order of the failure list, and where each failure comes from. */
module RunProperties {
  import opened Wrappers
  import opened TestModel
  import opened Report
  import opened Runner
  import Filter
  import Subseq

  /** The report of a run, in closed form: every result counts as run, and
      the failing ones, in execution order, make up the failure list. */
  lemma RunReportSpec(suites: seq<Suite>, inc: Option<string>)
    ensures Run(suites, inc).nRun == |RunResults(suites, inc)|
    ensures Run(suites, inc).failures == FailuresOf(RunResults(suites, inc))
    ensures Run(suites, inc).nFailed == |Run(suites, inc).failures| <= Run(suites, inc).nRun
  {
    RecordAllSpec(Empty, RunResults(suites, inc));
    assert Empty.failures + FailuresOf(RunResults(suites, inc)) == FailuresOf(RunResults(suites, inc));
  }

  /** A test case takes part in a run exactly when it is registered and the
      include expression selects its tags. */
  lemma {:induction false} SelectedIff(cases: seq<TCase>, inc: Option<string>, tc: TCase)
    ensures tc in Selected(cases, inc) <==> tc in cases && Filter.Included(tc.tags, inc)
    decreases |cases|
  {
    if |cases| > 0 {
      SelectedIff(cases[1..], inc, tc);
      assert cases == [cases[0]] + cases[1..];
    }
  }

  /** Without an include expression nothing is filtered out. */
  lemma {:induction false} SelectedWithoutFilter(cases: seq<TCase>)
    ensures Selected(cases, None) == cases
    decreases |cases|
  {
    if |cases| > 0 {
      SelectedWithoutFilter(cases[1..]);
      assert [cases[0]] + cases[1..] == cases;
    }
  }

  /** Running test cases produces one result per registered test. */
  lemma {:induction false} ResultsOfCount(cases: seq<TCase>)
    ensures |ResultsOf(cases)| == CountTests(cases)
    decreases |cases|
  {
    if |cases| > 0 {
      TestsResultsSpec(cases[0].name, cases[0].tests);
      ResultsOfCount(cases[1..]);
    }
  }

  /** With no include (and no exclude) expression every registered test
      runs, so the run count is the number of registered tests. */
  lemma NoFilterRunsAll(suites: seq<Suite>)
    ensures Run(suites, None).nRun == CountTests(AllCases(suites))
    ensures RunResults(suites, None) == ResultsOf(AllCases(suites))
  {
    SelectedWithoutFilter(AllCases(suites));
    ResultsOfCount(AllCases(suites));
    RunReportSpec(suites, None);
  }

  /** Selection keeps only registered cases, so it keeps "every test fails". */
  lemma {:induction false} SelectedAllFail(cases: seq<TCase>, inc: Option<string>)
    requires AllFail(cases)
    ensures AllFail(Selected(cases, inc))
    decreases |cases|
  {
    if |cases| > 0 {
      assert AllFail(cases[1..]) by {
        forall i, j | 0 <= i < |cases[1..]| && 0 <= j < |cases[1..][i].tests|
          ensures cases[1..][i].tests[j].outcome.Fail?
        {
          assert cases[1..][i] == cases[i + 1];
        }
      }
      SelectedAllFail(cases[1..], inc);
      var rest := Selected(cases[1..], inc);
      if Filter.Included(cases[0].tags, inc) {
        forall i, j | 0 <= i < |[cases[0]] + rest| && 0 <= j < |([cases[0]] + rest)[i].tests|
          ensures ([cases[0]] + rest)[i].tests[j].outcome.Fail?
        {
          if i > 0 { assert ([cases[0]] + rest)[i] == rest[i - 1]; }
        }
      }
    }
  }

  /** When every test fails, every result of running them is a failure. */
  lemma {:induction false} ResultsOfAllFail(cases: seq<TCase>)
    requires AllFail(cases)
    ensures forall i :: 0 <= i < |ResultsOf(cases)| ==> ResultsOf(cases)[i].status.Failed?
    decreases |cases|
  {
    if |cases| > 0 {
      assert AllFail(cases[1..]) by {
        forall i, j | 0 <= i < |cases[1..]| && 0 <= j < |cases[1..][i].tests|
          ensures cases[1..][i].tests[j].outcome.Fail?
        {
          assert cases[1..][i] == cases[i + 1];
        }
      }
      ResultsOfAllFail(cases[1..]);
      var head := CaseResults(cases[0]);
      TestsResultsSpec(cases[0].name, cases[0].tests);
      forall i | 0 <= i < |ResultsOf(cases)|
        ensures ResultsOf(cases)[i].status.Failed?
      {
        if i < |head| {
          assert ResultsOf(cases)[i] == Execute(cases[0].name, cases[0].tests[i]);
        } else {
          assert ResultsOf(cases)[i] == ResultsOf(cases[1..])[i - |head|];
        }
      }
    }
  }

  /** When every registered test fails, whatever the include expression, the
      failed count equals the run count and every result is in the failure
      list, in execution order. */
  lemma AllFailingFailsAll(suites: seq<Suite>, inc: Option<string>)
    requires AllFail(AllCases(suites))
    ensures Run(suites, inc).nFailed == Run(suites, inc).nRun
    ensures Run(suites, inc).failures == RunResults(suites, inc)
  {
    SelectedAllFail(AllCases(suites), inc);
    ResultsOfAllFail(Selected(AllCases(suites), inc));
    FailuresOfAllFailed(RunResults(suites, inc));
    RunReportSpec(suites, inc);
  }

  // ---------------------------------------------------------------------
  // Order preservation.

  lemma {:induction false} SelectedIsSubseq(cases: seq<TCase>, inc: Option<string>)
    ensures Subseq.IsSubseq(Selected(cases, inc), cases)
    decreases |cases|
  {
    if |cases| > 0 {
      SelectedIsSubseq(cases[1..], inc);
      var rest := Selected(cases[1..], inc);
      if Filter.Included(cases[0].tags, inc) {
        assert ([cases[0]] + rest)[1..] == rest;
      } else if |rest| > 0 {
        assert Subseq.IsSubseq(rest, cases[1..]);
      }
    }
  }

  lemma {:induction false} ResultsOfMonotone(a: seq<TCase>, b: seq<TCase>)
    requires Subseq.IsSubseq(a, b)
    ensures Subseq.IsSubseq(ResultsOf(a), ResultsOf(b))
    decreases |b|
  {
    if |a| == 0 {
      Subseq.EmptySubseq(ResultsOf(b));
    } else if a[0] == b[0] && Subseq.IsSubseq(a[1..], b[1..]) {
      ResultsOfMonotone(a[1..], b[1..]);
      Subseq.SubseqRefl(CaseResults(a[0]));
      Subseq.SubseqAppend(CaseResults(a[0]), CaseResults(b[0]), ResultsOf(a[1..]), ResultsOf(b[1..]));
    } else {
      ResultsOfMonotone(a, b[1..]);
      Subseq.SubseqSuffix(ResultsOf(a), ResultsOf(b[1..]), CaseResults(b[0]));
    }
  }

  lemma {:induction false} FailuresOfMonotone(xs: seq<TestResult>, ys: seq<TestResult>)
    requires Subseq.IsSubseq(xs, ys)
    ensures Subseq.IsSubseq(FailuresOf(xs), FailuresOf(ys))
    decreases |ys|
  {
    if |xs| == 0 {
      Subseq.EmptySubseq(FailuresOf(ys));
    } else if xs[0] == ys[0] && Subseq.IsSubseq(xs[1..], ys[1..]) {
      FailuresOfMonotone(xs[1..], ys[1..]);
      if xs[0].status.Failed? {
        assert ([xs[0]] + FailuresOf(xs[1..]))[1..] == FailuresOf(xs[1..]);
      }
    } else {
      FailuresOfMonotone(xs, ys[1..]);
      if ys[0].status.Failed? {
        Subseq.SubseqSuffix(FailuresOf(xs), FailuresOf(ys[1..]), [ys[0]]);
      }
    }
  }

  /** Filtering never reorders: the failure list of any filtered run is the
      failure list of the unfiltered run with some entries removed. */
  lemma FilterKeepsOrder(suites: seq<Suite>, inc: Option<string>)
    ensures Subseq.IsSubseq(Run(suites, inc).failures, Run(suites, None).failures)
  {
    var cases := AllCases(suites);
    SelectedIsSubseq(cases, inc);
    SelectedWithoutFilter(cases);
    ResultsOfMonotone(Selected(cases, inc), cases);
    FailuresOfMonotone(RunResults(suites, inc), RunResults(suites, None));
    RunReportSpec(suites, inc);
    RunReportSpec(suites, None);
  }

  // ---------------------------------------------------------------------
  // Where results come from.

  lemma {:induction false} ResultOrigin(cases: seq<TCase>, r: TestResult)
    requires r in ResultsOf(cases)
    ensures exists i, j :: 0 <= i < |cases| && 0 <= j < |cases[i].tests| && r == Execute(cases[i].name, cases[i].tests[j])
    decreases |cases|
  {
    var head := CaseResults(cases[0]);
    TestsResultsSpec(cases[0].name, cases[0].tests);
    if r in head {
      var j :| 0 <= j < |head| && head[j] == r;
      assert r == Execute(cases[0].name, cases[0].tests[j]);
    } else {
      assert r in ResultsOf(cases[1..]);
      ResultOrigin(cases[1..], r);
      var i, j :| 0 <= i < |cases[1..]| && 0 <= j < |cases[1..][i].tests| && r == Execute(cases[1..][i].name, cases[1..][i].tests[j]);
      assert cases[1..][i] == cases[i + 1];
    }
  }

  /** Every entry of the failure list is the result of a registered test in
      a selected test case, named after that case and test, and carries
      exactly the message that test failed with. */
  lemma FailureTraceable(suites: seq<Suite>, inc: Option<string>, r: TestResult)
    requires r in Run(suites, inc).failures
    ensures r.status.Failed?
    ensures exists tc, fn ::
              && tc in AllCases(suites) && Filter.Included(tc.tags, inc) && fn in tc.tests
              && r.caseName == tc.name && r.testName == fn.name && fn.outcome == Fail(r.status.msg)
  {
    RunReportSpec(suites, inc);
    var rs := RunResults(suites, inc);
    FailuresOfSound(rs);
    var k :| 0 <= k < |FailuresOf(rs)| && FailuresOf(rs)[k] == r;
    assert r in rs && r.status.Failed?;
    var sel := Selected(AllCases(suites), inc);
    ResultOrigin(sel, r);
    var i, j :| 0 <= i < |sel| && 0 <= j < |sel[i].tests| && r == Execute(sel[i].name, sel[i].tests[j]);
    SelectedIff(AllCases(suites), inc, sel[i]);
    assert sel[i].tests[j] in sel[i].tests;
  }

  /** Running test cases produces the result of every registered test. */
  lemma {:induction false} ResultsOfComplete(cases: seq<TCase>, tc: TCase, fn: TestFn)
    requires tc in cases && fn in tc.tests
    ensures Execute(tc.name, fn) in ResultsOf(cases)
    decreases |cases|
  {
    if cases[0] == tc {
      TestsResultsSpec(tc.name, tc.tests);
      var j :| 0 <= j < |tc.tests| && tc.tests[j] == fn;
      assert CaseResults(tc)[j] == Execute(tc.name, fn);
    } else {
      assert tc in cases[1..];
      ResultsOfComplete(cases[1..], tc, fn);
    }
  }

  /** The converse of `FailureTraceable`: every failing test of a registered
      test case the include expression selects is in the failure list. */
  lemma FailureReported(suites: seq<Suite>, inc: Option<string>, tc: TCase, fn: TestFn)
    requires tc in AllCases(suites) && Filter.Included(tc.tags, inc)
    requires fn in tc.tests && fn.outcome.Fail?
    ensures Execute(tc.name, fn) in Run(suites, inc).failures
  {
    SelectedIff(AllCases(suites), inc, tc);
    ResultsOfComplete(Selected(AllCases(suites), inc), tc, fn);
    FailuresOfComplete(RunResults(suites, inc), Execute(tc.name, fn));
    RunReportSpec(suites, inc);
  }

  /** A run's report depends only on the suites and the include expression:
      whatever an earlier run on the same runner reported is discarded. */
  lemma RunDiscardsEarlierReport(r: Runner, first: Option<string>, second: Option<string>)
    ensures SrunnerRun(SrunnerRun(r, first), second) == SrunnerRun(r, second)
    ensures SrunnerRun(r, second).report == Run(r.suites, second)
  {
  }
}
