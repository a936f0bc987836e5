/** The result aggregator: test results are recorded one at a time into a
    run report holding the run count, the failed count and the ordered list
    of failing results. */
module Report {

  /** The status of one executed test; a failure carries the failing
      assertion's message as stored, that is, after its printf-style
      expansion. */
  datatype Status = Passed | Failed(msg: string)

  /** The record of one executed test. */
  datatype TestResult = TestResult(caseName: string, testName: string, status: Status)

  /** What `srunner_ntests_run`, `srunner_ntests_failed` and
      `srunner_failures` return after a run. */
  datatype Report = Report(nRun: nat, nFailed: nat, failures: seq<TestResult>)

  /** The report of a run that executed nothing. */
  const Empty: Report := Report(0, 0, [])

  /** The aggregator's invariant: the failed count is the length of the
      failure list, no more than the run count, and the list holds only
      failing results. */
  predicate Valid(rep: Report) {
    && rep.nFailed == |rep.failures| <= rep.nRun
    && forall i :: 0 <= i < |rep.failures| ==> rep.failures[i].status.Failed?
  }

  /** The failing results of `rs`, in their order in `rs`. */
  function FailuresOf(rs: seq<TestResult>): seq<TestResult>
  {
    if |rs| == 0 then []
    else if rs[0].status.Failed? then [rs[0]] + FailuresOf(rs[1..])
    else FailuresOf(rs[1..])
  }

  /** The messages of a list of failing results, in order. */
  function Messages(fs: seq<TestResult>): (ms: seq<string>)
    requires forall i :: 0 <= i < |fs| ==> fs[i].status.Failed?
    ensures |ms| == |fs|
    ensures forall i :: 0 <= i < |fs| ==> fs[i].status == Failed(ms[i])
  {
    if |fs| == 0 then [] else [fs[0].status.msg] + Messages(fs[1..])
  }

  /** Records one result: it counts as run, and a failing result is counted
      as failed and appended to the failure list. */
  function Record(rep: Report, r: TestResult): (rep': Report)
    requires Valid(rep)
    ensures Valid(rep')
    ensures rep'.nRun == rep.nRun + 1
    ensures r.status.Failed? ==> rep'.nFailed == rep.nFailed + 1 && rep'.failures == rep.failures + [r]
    ensures r.status.Passed? ==> rep'.nFailed == rep.nFailed && rep'.failures == rep.failures
  {
    if r.status.Failed? then Report(rep.nRun + 1, rep.nFailed + 1, rep.failures + [r])
    else Report(rep.nRun + 1, rep.nFailed, rep.failures)
  }

  /** Records a list of results in order. */
  function RecordAll(rep: Report, rs: seq<TestResult>): (rep': Report)
    requires Valid(rep)
    ensures Valid(rep')
    decreases |rs|
  {
    if |rs| == 0 then rep else RecordAll(Record(rep, rs[0]), rs[1..])
  }

  /** The failing results of a concatenation are those of each part. */
  lemma {:induction false} FailuresOfAppend(xs: seq<TestResult>, ys: seq<TestResult>)
    ensures FailuresOf(xs + ys) == FailuresOf(xs) + FailuresOf(ys)
    decreases |xs|
  {
    if |xs| == 0 {
      assert xs + ys == ys;
    } else {
      assert (xs + ys)[0] == xs[0];
      assert (xs + ys)[1..] == xs[1..] + ys;
      FailuresOfAppend(xs[1..], ys);
    }
  }

  /** Only failing results are kept, and each kept one comes from `rs`. */
  lemma {:induction false} FailuresOfSound(rs: seq<TestResult>)
    ensures forall i :: 0 <= i < |FailuresOf(rs)| ==> FailuresOf(rs)[i].status.Failed? && FailuresOf(rs)[i] in rs
    ensures |FailuresOf(rs)| <= |rs|
    decreases |rs|
  {
    if |rs| > 0 {
      FailuresOfSound(rs[1..]);
    }
  }

  /** Every failing result is kept: the converse of `FailuresOfSound`. */
  lemma {:induction false} FailuresOfComplete(rs: seq<TestResult>, r: TestResult)
    requires r in rs && r.status.Failed?
    ensures r in FailuresOf(rs)
    decreases |rs|
  {
    if rs[0] != r {
      assert r in rs[1..];
      FailuresOfComplete(rs[1..], r);
    }
  }

  /** When every result fails, every result is kept. */
  lemma {:induction false} FailuresOfAllFailed(rs: seq<TestResult>)
    requires forall i :: 0 <= i < |rs| ==> rs[i].status.Failed?
    ensures FailuresOf(rs) == rs
    decreases |rs|
  {
    if |rs| > 0 {
      FailuresOfAllFailed(rs[1..]);
      assert [rs[0]] + rs[1..] == rs;
    }
  }

  /** The incremental aggregator agrees with the direct definition: after
      recording `rs`, the run count grows by |rs|, the failed count by the
      number of failing results, and those results are appended in order. */
  lemma {:induction false} RecordAllSpec(rep: Report, rs: seq<TestResult>)
    requires Valid(rep)
    ensures RecordAll(rep, rs) == Report(rep.nRun + |rs|, rep.nFailed + |FailuresOf(rs)|, rep.failures + FailuresOf(rs))
    decreases |rs|
  {
    if |rs| == 0 {
      assert rep.failures + [] == rep.failures;
    } else {
      var rep1 := Record(rep, rs[0]);
      RecordAllSpec(rep1, rs[1..]);
      if rs[0].status.Failed? {
        assert rep.failures + [rs[0]] + FailuresOf(rs[1..]) == rep.failures + ([rs[0]] + FailuresOf(rs[1..]));
      }
    }
  }

  /** Recording two lists one after the other is recording their
      concatenation. */
  lemma {:induction false} RecordAllAppend(rep: Report, xs: seq<TestResult>, ys: seq<TestResult>)
    requires Valid(rep)
    ensures RecordAll(rep, xs + ys) == RecordAll(RecordAll(rep, xs), ys)
  {
    var mid := RecordAll(rep, xs);
    RecordAllSpec(rep, xs + ys);
    RecordAllSpec(rep, xs);
    RecordAllSpec(mid, ys);
    FailuresOfAppend(xs, ys);
    assert |xs + ys| == |xs| + |ys|;
    assert rep.failures + FailuresOf(xs + ys) == (rep.failures + FailuresOf(xs)) + FailuresOf(ys);
  }
}
