/** Tag-based selection of test cases by an include expression. */
module Filter {
  import opened Wrappers
  import Tags

  /** Whether a test case with tag set `tags` runs under the include
      expression `inc`: an absent expression selects every case, a
      present one selects the cases sharing at least one tag with it. */
  function Included(tags: set<string>, inc: Option<string>): (b: bool)
    ensures inc.None? ==> b
  {
    match inc
    case None => true
    case Some(e) => Tags.Tokenise(e) * tags != {}
  }

  /** A present include expression selects a case exactly when one of the
      tokens written in it is among the case's tags. */
  lemma IncludedIffSharedToken(tags: set<string>, e: string)
    ensures Included(tags, Some(e)) <==> exists k :: 0 <= k < |Tags.Tokens(e)| && Tags.Tokens(e)[k] in tags
  {
    var ts := Tags.Tokens(e);
    if Included(tags, Some(e)) {
      var t :| t in Tags.Tokenise(e) * tags;
      var k :| 0 <= k < |ts| && ts[k] == t;
      assert ts[k] in tags;
    } else {
      forall k | 0 <= k < |ts|
        ensures ts[k] !in tags
      {
        assert ts[k] in Tags.Tokenise(e);
        assert ts[k] !in Tags.Tokenise(e) * tags;
      }
    }
  }

  /** A case created without tags runs only when no include expression is
      given. */
  lemma UntaggedOnlyWithoutFilter(inc: Option<string>)
    ensures Included({}, inc) <==> inc.None?
  {
  }

  /** A present include expression made only of white space (in particular
      the empty string) selects nothing. */
  lemma BlankIncludeSelectsNothing(tags: set<string>, e: string)
    requires forall i :: 0 <= i < |e| ==> Tags.IsSpace(e[i])
    ensures !Included(tags, Some(e))
  {
    Tags.BlankHasNoTokens(e);
  }

  /** Matching is by token, not by whole string: a one-tag include
      expression selects exactly the cases whose tag set holds that tag. */
  lemma SingleTagInclude(tags: set<string>, w: string)
    requires Tags.IsTag(w)
    ensures Included(tags, Some(w)) <==> w in tags
  {
    Tags.TokeniseSingle(w);
    if w in tags {
      assert w in Tags.Tokenise(w) * tags;
    } else {
      assert Tags.Tokenise(w) * tags == {};
    }
  }

  /** Order and repetition of the tokens in an include expression do not
      matter: "Red Red Red" selects what "Red" selects, and "Red Blue Red"
      what "Blue Red" selects. */
  lemma RepeatedIncludeTokens(tags: set<string>, ts: seq<string>, us: seq<string>)
    requires Tags.AllTags(ts) && Tags.AllTags(us)
    requires forall t :: t in ts <==> t in us
    ensures Included(tags, Some(Tags.Join(ts))) == Included(tags, Some(Tags.Join(us)))
  {
    Tags.RepeatedTokensSameSet(ts, us);
  }

  /** Normalising an include expression does not change what it selects. */
  lemma NormalizedIncludeSame(tags: set<string>, e: string)
    ensures Included(tags, Some(Tags.Normalize(e))) == Included(tags, Some(e))
  {
    Tags.NormalizeKeepsTokens(e);
  }
}
