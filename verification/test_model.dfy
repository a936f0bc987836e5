/** The in-memory test model: a suite owns its test cases in registration
    order, a test case owns its tag set and its tests in registration order. */
module TestModel {
  import Tags

  /** What a test body does when run without process isolation: it returns
      normally, or it fails an assertion with a message. The assertion's
      message is a printf format; `msg` is its expanded text. */
  datatype Outcome = Pass | Fail(msg: string)

  /** A test function, identified by name, together with its outcome. */
  datatype TestFn = TestFn(name: string, outcome: Outcome)

  /** A test case: a name, the set of tags it carries, and its tests. */
  datatype TCase = TCase(name: string, tags: set<string>, tests: seq<TestFn>)

  /** A suite: a name and its test cases. */
  datatype Suite = Suite(name: string, cases: seq<TCase>)

  /** `tcase_create`: a test case with no tags and no tests. */
  function CreateCase(name: string): (tc: TCase)
    ensures tc.name == name
    ensures tc.tags == {}
    ensures tc.tests == []
  {
    TCase(name, {}, [])
  }

  /** `tcase_create_tagged`: a test case whose tag set is the set of tokens of
      the given tag string. */
  function CreateTaggedCase(name: string, tagString: string): (tc: TCase)
    ensures tc.name == name
    ensures forall t :: t in tc.tags <==> t in Tags.Tokens(tagString)
    ensures tc.tests == []
  {
    TCase(name, Tags.Tokenise(tagString), [])
  }

  /** `tcase_add_test`: appends a test after those already registered. */
  function AddTest(tc: TCase, fn: TestFn): (tc': TCase)
    ensures tc'.name == tc.name && tc'.tags == tc.tags
    ensures |tc'.tests| == |tc.tests| + 1
    ensures tc'.tests[..|tc.tests|] == tc.tests && tc'.tests[|tc.tests|] == fn
  {
    tc.(tests := tc.tests + [fn])
  }

  /** `suite_create`: a suite with no test cases. */
  function CreateSuite(name: string): (s: Suite)
    ensures s.name == name && s.cases == []
  {
    Suite(name, [])
  }

  /** `suite_add_tcase`: appends a test case after those already registered. */
  function AddCase(s: Suite, tc: TCase): (s': Suite)
    ensures s'.name == s.name
    ensures |s'.cases| == |s.cases| + 1
    ensures s'.cases[..|s.cases|] == s.cases && s'.cases[|s.cases|] == tc
  {
    s.(cases := s.cases + [tc])
  }

  /** The test cases of a list of suites, suite by suite, each in
      registration order. */
  function AllCases(suites: seq<Suite>): seq<TCase>
  {
    if |suites| == 0 then [] else suites[0].cases + AllCases(suites[1..])
  }

  /** The number of tests registered in a list of test cases. */
  function CountTests(cases: seq<TCase>): nat
  {
    if |cases| == 0 then 0 else |cases[0].tests| + CountTests(cases[1..])
  }

  /** Every registered test fails (as every test of the tag fixture does). */
  predicate AllFail(cases: seq<TCase>) {
    forall i, j :: 0 <= i < |cases| && 0 <= j < |cases[i].tests| ==> cases[i].tests[j].outcome.Fail?
  }

  lemma {:induction false} AllCasesAppend(a: seq<Suite>, b: seq<Suite>)
    ensures AllCases(a + b) == AllCases(a) + AllCases(b)
    decreases |a|
  {
    if |a| > 0 {
      assert (a + b)[1..] == a[1..] + b;
      AllCasesAppend(a[1..], b);
    } else {
      assert a + b == b;
    }
  }
}
