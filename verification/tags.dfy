/** The tag engine: a tag string such as "Red Blue" is a whitespace-separated
    list of tokens, and a test case's tag set is the set of those tokens. */
module Tags {

  /** The characters C's `isspace` treats as white space in the "C" locale. */
  predicate IsSpace(c: char) {
    c == ' ' || c == '\t' || c == '\n' || c == '\r' || c == '\U{B}' || c == '\U{C}'
  }

  /** A string with no white space in it (possibly empty). */
  predicate NoSpace(w: string) {
    forall i :: 0 <= i < |w| ==> !IsSpace(w[i])
  }

  /** A well-formed tag: non-empty and free of white space. */
  predicate IsTag(w: string) {
    |w| > 0 && NoSpace(w)
  }

  /** Every element of `ts` is a well-formed tag. */
  predicate AllTags(ts: seq<string>) {
    forall k :: 0 <= k < |ts| ==> IsTag(ts[k])
  }

  /** The token under construction, if any, as a list of zero or one tags. */
  function Flush(cur: string): (ts: seq<string>)
    requires NoSpace(cur)
    ensures AllTags(ts)
    ensures |ts| <= 1
    ensures |ts| == 1 <==> cur != []
  {
    if cur == [] then [] else [cur]
  }

  /** Left-to-right scan of `s`, where `cur` holds the characters of the token
      being read: white space ends the current token, any other character
      extends it, and runs of white space yield no empty tokens. */
  function SplitFrom(cur: string, s: string): (ts: seq<string>)
    requires NoSpace(cur)
    ensures AllTags(ts)
    decreases |s|
  {
    if |s| == 0 then Flush(cur)
    else if IsSpace(s[0]) then Flush(cur) + SplitFrom([], s[1..])
    else SplitFrom(cur + [s[0]], s[1..])
  }

  /** The tokens of a tag string, in the order they are written. */
  function Tokens(s: string): (ts: seq<string>)
    ensures AllTags(ts)
  {
    SplitFrom([], s)
  }

  /** The tag set a tag string denotes: order and repetition are irrelevant. */
  function Tokenise(s: string): (tags: set<string>)
    ensures forall t :: t in tags ==> IsTag(t)
  {
    set t | t in Tokens(s)
  }

  /** Tags written out separated by single spaces. */
  function Join(ts: seq<string>): string
  {
    if |ts| == 0 then []
    else if |ts| == 1 then ts[0]
    else ts[0] + " " + Join(ts[1..])
  }

  /** The canonical form of a tag string: its tokens separated by single
      spaces, with no leading or trailing white space. */
  function Normalize(s: string): string
  {
    Join(Tokens(s))
  }

  /** Reading a white-space-free chunk only extends the current token. */
  lemma {:induction false} SplitWord(cur: string, w: string, rest: string)
    requires NoSpace(cur) && NoSpace(w)
    ensures NoSpace(cur + w)
    ensures SplitFrom(cur, w + rest) == SplitFrom(cur + w, rest)
    decreases |w|
  {
    assert NoSpace(cur + w) by {
      forall i | 0 <= i < |cur + w|
        ensures !IsSpace((cur + w)[i])
      {
        if i >= |cur| { assert (cur + w)[i] == w[i - |cur|]; }
      }
    }
    if |w| > 0 {
      var c := w[0];
      assert (w + rest)[0] == c && (w + rest)[1..] == w[1..] + rest;
      assert NoSpace(cur + [c]);
      assert NoSpace(w[1..]);
      SplitWord(cur + [c], w[1..], rest);
      assert (cur + [c]) + w[1..] == cur + w;
    } else {
      assert w + rest == rest;
      assert cur + w == cur;
    }
  }

  /** Reading leading white space produces no token. */
  lemma {:induction false} SplitSpaces(s: string)
    requires forall i :: 0 <= i < |s| ==> IsSpace(s[i])
    ensures SplitFrom([], s) == []
    decreases |s|
  {
    if |s| > 0 {
      SplitSpaces(s[1..]);
    }
  }

  /** A tag string made only of white space (including the empty string) has
      no tokens, so it denotes the empty tag set. */
  lemma BlankHasNoTokens(s: string)
    requires forall i :: 0 <= i < |s| ==> IsSpace(s[i])
    ensures Tokens(s) == []
    ensures Tokenise(s) == {}
  {
    SplitSpaces(s);
  }

  /** A white-space character ends the token being read, and the scan
      resumes with no token under construction. */
  lemma {:induction false} SplitFromAtSpace(cur: string, a: string, c: char, b: string)
    requires NoSpace(cur) && IsSpace(c)
    ensures SplitFrom(cur, a + [c] + b) == SplitFrom(cur, a) + SplitFrom([], b)
    decreases |a|
  {
    if |a| == 0 {
      assert a + [c] + b == [c] + b;
      assert ([c] + b)[1..] == b;
    } else {
      var s := a + [c] + b;
      assert s[0] == a[0] && s[1..] == a[1..] + [c] + b;
      if IsSpace(a[0]) {
        SplitFromAtSpace([], a[1..], c, b);
        assert Flush(cur) + (SplitFrom([], a[1..]) + SplitFrom([], b))
            == (Flush(cur) + SplitFrom([], a[1..])) + SplitFrom([], b);
      } else {
        assert NoSpace(cur + [a[0]]);
        SplitFromAtSpace(cur + [a[0]], a[1..], c, b);
      }
    }
  }

  /** Tag strings split at every `isspace` character: the tokens on either
      side of one are read independently, so leading, trailing and repeated
      white space and any mix of spaces and tabs yield no empty tokens and
      no token spanning the white space. */
  lemma TokensSplit(a: string, c: char, b: string)
    requires IsSpace(c)
    ensures Tokens(a + [c] + b) == Tokens(a) + Tokens(b)
  {
    SplitFromAtSpace([], a, c, b);
  }

  /** For example, a tab separates tags just as a space does. */
  lemma TabSeparatedTags()
    ensures Tokens("Red\tBlue") == ["Red", "Blue"]
    ensures Tokens(" Red  Blue ") == ["Red", "Blue"]
  {
    TokeniseSingle("Red");
    TokeniseSingle("Blue");
    BlankHasNoTokens("");
    assert "Red\tBlue" == "Red" + ['\t'] + "Blue";
    TokensSplit("Red", '\t', "Blue");
    assert "Blue " == "Blue" + [' '] + "";
    TokensSplit("Blue", ' ', "");
    assert " Blue " == "" + [' '] + "Blue ";
    TokensSplit("", ' ', "Blue ");
    assert "Red  Blue " == "Red" + [' '] + " Blue ";
    TokensSplit("Red", ' ', " Blue ");
    assert " Red  Blue " == "" + [' '] + "Red  Blue ";
    TokensSplit("", ' ', "Red  Blue ");
  }

  /** Normalisation trims leading and trailing white space and collapses
      every run of white space, tabs included, to a single space. */
  lemma NormalizeTrimsAndCollapses()
    ensures Normalize(" Red  Blue ") == "Red Blue"
    ensures Normalize("Red\tBlue") == "Red Blue"
  {
    TabSeparatedTags();
    assert ["Red", "Blue"][1..] == ["Blue"];
    assert Join(["Red", "Blue"]) == "Red" + " " + "Blue";
  }

  /** Round trip: tokenising tags joined by single spaces gives back exactly
      those tags, in order and with repetitions. */
  lemma {:induction false} TokensOfJoin(ts: seq<string>)
    requires AllTags(ts)
    ensures Tokens(Join(ts)) == ts
    decreases |ts|
  {
    if |ts| == 1 {
      SplitWord([], ts[0], []);
      assert ts[0] + [] == ts[0];
      assert [] + ts[0] == ts[0];
    } else if |ts| > 1 {
      var rest := " " + Join(ts[1..]);
      assert Join(ts) == ts[0] + rest;
      SplitWord([], ts[0], rest);
      assert [] + ts[0] == ts[0];
      assert rest[0] == ' ' && rest[1..] == Join(ts[1..]);
      assert SplitFrom(ts[0], rest) == [ts[0]] + SplitFrom([], Join(ts[1..]));
      TokensOfJoin(ts[1..]);
      assert [ts[0]] + ts[1..] == ts;
    }
  }

  /** Normalisation keeps the tokens of a tag string. */
  lemma NormalizeKeepsTokens(s: string)
    ensures Tokens(Normalize(s)) == Tokens(s)
    ensures Tokenise(Normalize(s)) == Tokenise(s)
  {
    TokensOfJoin(Tokens(s));
  }

  /** Normalisation is idempotent. */
  lemma NormalizeIdempotent(s: string)
    ensures Normalize(Normalize(s)) == Normalize(s)
  {
    NormalizeKeepsTokens(s);
  }

  /** A single well-formed tag is a tag string with exactly that token. */
  lemma TokeniseSingle(w: string)
    requires IsTag(w)
    ensures Tokens(w) == [w]
    ensures Tokenise(w) == {w}
  {
    TokensOfJoin([w]);
  }

  /** The tag set of tags joined by single spaces is the set of those tags. */
  lemma TokeniseJoin(ts: seq<string>)
    requires AllTags(ts)
    ensures Tokenise(Join(ts)) == set t | t in ts
  {
    TokensOfJoin(ts);
  }

  /** Order and repetition of the tokens in a tag string do not matter: two
      lists of tags holding the same tags, however often and in whatever
      order ("Red Red Red" and "Red", "Red Blue Red" and "Blue Red"), denote
      the same tag set. */
  lemma RepeatedTokensSameSet(ts: seq<string>, us: seq<string>)
    requires AllTags(ts) && AllTags(us)
    requires forall t :: t in ts <==> t in us
    ensures Tokenise(Join(ts)) == Tokenise(Join(us))
  {
    TokeniseJoin(ts);
    TokeniseJoin(us);
  }

  /** For example, "Red Red Red" denotes the same tag set as "Red". */
  lemma TripleRedIsRed()
    ensures Tokenise("Red Red Red") == Tokenise("Red") == {"Red"}
  {
    var red := "Red";
    assert IsTag(red);
    assert [red, red, red][1..] == [red, red] && [red, red][1..] == [red];
    assert Join([red]) == red;
    assert Join([red, red]) == red + " " + red;
    assert Join([red, red, red]) == red + " " + (red + " " + red);
    assert red + " " + (red + " " + red) == "Red Red Red";
    RepeatedTokensSameSet([red, red, red], [red]);
    TokeniseSingle(red);
  }
}
