/** Front matter extraction as src/compiler/parser.ts does it: the trimmed
    document must open with /^-{3,}[^-]+-{3,}/; the header, stripped of its
    dash runs, goes to YAML and the trimmed rest is the body. */
module Frontmatter {
  import opened Wrappers
  import opened Text
  import opened JsValues
  import opened Errors
  import opened Foreign

  predicate IsDash(c: char) { c == '-' }

  predicate IsNotDash(c: char) { c != '-' }

  const DashMarks: set<char> := {'-'}

  /** The split of h into `-{3,}`, `[^-]+` and `-{3,}` at i and j. */
  ghost predicate HeaderSplit(h: string, i: nat, j: nat) {
    && 3 <= i < j <= |h| - 3
    && (forall k :: 0 <= k < i ==> h[k] == '-')
    && (forall k :: i <= k < j ==> h[k] != '-')
    && (forall k :: j <= k < |h| ==> h[k] == '-')
  }

  /** h as a whole is matched by /-{3,}[^-]+-{3,}/. */
  ghost predicate IsHeader(h: string) {
    exists i: nat, j: nat :: HeaderSplit(h, i, j)
  }

  /** No prefix of t is a header, so the anchored pattern finds nothing. */
  ghost predicate HeaderFree(t: string) {
    forall e :: 0 <= e <= |t| ==> !IsHeader(t[..e])
  }

  /** The anchored greedy match of /^-{3,}[^-]+-{3,}/ on t, split into the
      matched header and the text after it. */
  function SplitHeader(t: string): (r: Option<(string, string)>)
    ensures r.Some? ==> t == r.value.0 + r.value.1
  {
    var a := Span(t, IsDash);
    if a < 3 then None
    else
      var m := Span(t[a..], IsNotDash);
      if m == 0 then None
      else
        var c := Span(t[a + m..], IsDash);
        if c < 3 then None
        else
          assert t == t[..a + m + c] + t[a + m + c..];
          Some((t[..a + m + c], t[a + m + c..]))
  }

  /** Any split of a header prefix of t is the one SplitHeader computes: the
      opening run is all of t's leading dashes, the middle all the non-dashes
      after it, and the closing run lies inside the dashes that follow. */
  lemma HeaderSplitIsForced(t: string, e: nat, i: nat, j: nat)
    requires e <= |t| && HeaderSplit(t[..e], i, j)
    ensures i == Span(t, IsDash)
    ensures j == i + Span(t[i..], IsNotDash)
    ensures e <= j + Span(t[j..], IsDash)
  {
    var h := t[..e];
    assert forall k :: 0 <= k < e ==> h[k] == t[k];
    assert forall k :: 0 <= k < i ==> IsDash(t[k]);
    SpanIs(t, IsDash, i);
    var u := t[i..];
    assert forall k :: 0 <= k < j - i ==> u[k] == h[i + k];
    assert forall k :: 0 <= k < j - i ==> IsNotDash(u[k]);
    assert u[j - i] == h[j];
    SpanIs(u, IsNotDash, j - i);
    var w := t[j..];
    assert forall k :: 0 <= k < e - j ==> w[k] == h[j + k];
    assert forall k :: 0 <= k < e - j ==> IsDash(w[k]);
    SpanAtLeast(w, IsDash, e - j);
  }

  /** What SplitHeader returns is a header. */
  lemma SplitHeaderIsHeader(t: string)
    requires SplitHeader(t).Some?
    ensures IsHeader(SplitHeader(t).value.0)
  {
    var a := Span(t, IsDash);
    var m := Span(t[a..], IsNotDash);
    var c := Span(t[a + m..], IsDash);
    var h := t[..a + m + c];
    forall k | 0 <= k < a
      ensures h[k] == '-'
    {
      assert IsDash(t[k]);
    }
    forall k | a <= k < a + m
      ensures h[k] != '-'
    {
      assert IsNotDash(t[a..][k - a]);
    }
    forall k | a + m <= k < |h|
      ensures h[k] == '-'
    {
      assert IsDash(t[a + m..][k - a - m]);
    }
    assert HeaderSplit(h, a, a + m);
  }

  /** SplitHeader finds nothing exactly when no prefix of t is a header. */
  lemma SplitHeaderNoneIff(t: string)
    ensures SplitHeader(t).None? <==> HeaderFree(t)
  {
    if !HeaderFree(t) {
      var e :| 0 <= e <= |t| && IsHeader(t[..e]);
      var i: nat, j: nat :| HeaderSplit(t[..e], i, j);
      HeaderSplitIsForced(t, e, i, j);
    }
    if SplitHeader(t).Some? {
      SplitHeaderIsHeader(t);
      var h := SplitHeader(t).value.0;
      assert t[..|h|] == h;
    }
  }

  /** SplitHeader finds exactly what the regular expression does: the longest
      prefix that is a header, and nothing when no prefix is one. The match
      always starts at index 0. */
  lemma SplitHeaderIsLongestMatch(t: string)
    ensures SplitHeader(t).Some? ==>
      var h := SplitHeader(t).value.0;
      IsHeader(h) && forall e :: |h| < e <= |t| ==> !IsHeader(t[..e])
    ensures SplitHeader(t).None? <==> HeaderFree(t)
  {
    forall e | 0 <= e <= |t| && IsHeader(t[..e])
      ensures SplitHeader(t).Some? && e <= |SplitHeader(t).value.0|
    {
      var i: nat, j: nat :| HeaderSplit(t[..e], i, j);
      HeaderSplitIsForced(t, e, i, j);
    }
    if SplitHeader(t).Some? {
      SplitHeaderIsHeader(t);
    }
    SplitHeaderNoneIff(t);
  }

  /** parseYAMLString: YAML.parse of the text with every run of three or more dashes removed. */
  function ParseYamlString(yaml: YamlParser, text: string): Result<Value, string> {
    yaml(StripRuns(text, DashMarks))
  }

  /** The header with its dash runs removed is exactly the text between the delimiters. */
  lemma {:induction false} HeaderStripsToMiddle(h: string, i: nat, j: nat)
    requires HeaderSplit(h, i, j)
    ensures StripRuns(h, DashMarks) == h[i..j]
  {
    assert h == h[..i] + h[i..j] + h[j..];
    StripRunsAppend(h[..i], h[i..j] + h[j..], DashMarks);
    StripRunsAppend(h[i..j], h[j..], DashMarks);
    assert h[..i] + (h[i..j] + h[j..]) == h;
    StripRunsOneRun(h[..i], '-', DashMarks);
    StripRunsNoMarks(h[i..j], DashMarks);
    StripRunsOneRun(h[j..], '-', DashMarks);
  }

  datatype Document = Document(metadata: Value, body: string)

  /** extractYAML: the metadata is the parsed header, or {} when that is falsy;
      the body is the trimmed text after the header. */
  function ExtractYaml(yaml: YamlParser, header: string, rest: string): (r: Result<Document, Error>)
    ensures r.Failure? <==> ParseYamlString(yaml, header).Failure?
    ensures r.Failure? ==> r.error == YamlSyntax(ParseYamlString(yaml, header).error)
    ensures r.Success? ==> IsTrimmed(r.value.body) && Truthy(r.value.metadata)
    ensures r.Success? ==> r.value.body == Trim(rest)
    ensures r.Success? && Truthy(ParseYamlString(yaml, header).value) ==> r.value.metadata == ParseYamlString(yaml, header).value
    ensures r.Success? && !Truthy(ParseYamlString(yaml, header).value) ==> r.value.metadata == EmptyObject
  {
    match ParseYamlString(yaml, header)
    case Failure(reason) => Failure(YamlSyntax(reason))
    case Success(v) => Success(Document(if Truthy(v) then v else EmptyObject, Trim(rest)))
  }

  /** parse: split a document into front matter metadata and body. */
  function Parse(yaml: YamlParser, burrito: string): (r: Result<Document, Error>)
    ensures r == Failure(NoYamlHeader) <==> SplitHeader(Trim(burrito)).None?
    ensures r.Success? ==> IsTrimmed(r.value.body) && Truthy(r.value.metadata)
  {
    var split := SplitHeader(Trim(burrito));
    if split.None? then Failure(NoYamlHeader)
    else ExtractYaml(yaml, split.value.0, split.value.1)
  }

  /** "Could not find yaml header" exactly when no prefix of the trimmed
      document matches the header pattern. */
  lemma ParseHeaderless(yaml: YamlParser, burrito: string)
    ensures Parse(yaml, burrito) == Failure(NoYamlHeader) <==> HeaderFree(Trim(burrito))
  {
    SplitHeaderNoneIff(Trim(burrito));
  }

  /** A document that opens with a dash loses only its trailing whitespace to trim. */
  lemma {:induction false} TrimOfDashed(x: string, b: string)
    requires x != [] && x[0] == '-' && x[|x| - 1] == '-'
    ensures Trim(x + b) == x + TrimEnd(b)
  {
    assert (x + b)[0] == '-';
    assert TrimStart(x + b) == x + b;
    TrimEndAppend(x, b);
  }

  /** "---" + m + "---" with a non-empty dash-free m is a header split at 3 and 3 + |m|. */
  lemma ConstructedHeader(m: string)
    requires m != [] && forall k :: 0 <= k < |m| ==> m[k] != '-'
    ensures HeaderSplit("---" + m + "---", 3, 3 + |m|)
  {
    var x := "---" + m + "---";
    assert x[..3] == "---";
    assert x[3..3 + |m|] == m;
    assert x[3 + |m|..] == "---";
    assert forall k :: 0 <= k < 3 ==> x[k] == x[..3][k];
    assert forall k :: 3 <= k < 3 + |m| ==> x[k] == m[k - 3];
    assert forall k :: 3 + |m| <= k < |x| ==> x[k] == x[3 + |m|..][k - 3 - |m|];
  }

  /** "---" + m + "---" followed by text that does not start with a dash is
      split exactly at the closing delimiter. */
  lemma {:induction false} SplitOfConstructed(m: string, rest: string)
    requires m != [] && forall k :: 0 <= k < |m| ==> m[k] != '-'
    requires rest == [] || rest[0] != '-'
    ensures SplitHeader("---" + m + "---" + rest) == Some(("---" + m + "---", rest))
  {
    var x := "---" + m + "---";
    var t := x + rest;
    assert "---" + m + "---" + rest == t;
    ConstructedHeader(m);
    assert t[..|x|] == x;
    HeaderSplitIsForced(t, |x|, 3, 3 + |m|);
    var w := t[3 + |m|..];
    assert w[..3] == "---";
    assert w[3..] == rest;
    assert forall k :: 0 <= k < 3 ==> w[k] == w[..3][k];
    SpanIs(w, IsDash, 3);
    assert t[|x|..] == rest;
  }

  /** Removing the dash runs from "---" + m + "---" leaves m. */
  lemma StripOfConstructed(m: string)
    requires m != [] && forall k :: 0 <= k < |m| ==> m[k] != '-'
    ensures StripRuns("---" + m + "---", DashMarks) == m
  {
    var x := "---" + m + "---";
    ConstructedHeader(m);
    HeaderStripsToMiddle(x, 3, 3 + |m|);
    assert x[3..3 + |m|] == m;
  }

  /** Round trip: a document built from a dash-free header text m and a body b
      parses to YAML's reading of m (or {} when that is falsy) and the trimmed
      b; the delimiters never reach the body. */
  lemma ParseRoundTrip(yaml: YamlParser, m: string, b: string)
    requires m != [] && forall k :: 0 <= k < |m| ==> m[k] != '-'
    requires b == [] || b[0] != '-'
    ensures Parse(yaml, "---" + m + "---" + b) ==
      match yaml(m)
      case Failure(reason) => Failure(YamlSyntax(reason))
      case Success(v) => Success(Document(if Truthy(v) then v else EmptyObject, Trim(b)))
  {
    var x := "---" + m + "---";
    assert "---" + m + "---" + b == x + b;
    TrimOfDashed(x, b);
    var rest := TrimEnd(b);
    assert rest == [] || rest[0] == b[0];
    assert x + rest == "---" + m + "---" + rest;
    SplitOfConstructed(m, rest);
    StripOfConstructed(m);
    TrimOfTrimEnd(b);
  }

  /** A header followed by text that does not start with a dash is split
      exactly at the end of the header: the closing run cannot grow. */
  lemma {:induction false} SplitOfHeader(h: string, i: nat, j: nat, rest: string)
    requires HeaderSplit(h, i, j)
    requires rest == [] || rest[0] != '-'
    ensures SplitHeader(h + rest) == Some((h, rest))
  {
    var t := h + rest;
    assert t[..|h|] == h;
    HeaderSplitIsForced(t, |h|, i, j);
    var w := t[j..];
    assert forall k :: 0 <= k < |h| - j ==> w[k] == h[j + k];
    assert forall k :: 0 <= k < |h| - j ==> IsDash(w[k]);
    if rest != [] {
      assert w[|h| - j] == rest[0];
    }
    SpanIs(w, IsDash, |h| - j);
    assert t[|h|..] == rest;
  }

  /** A document made of white space p, a header h and a body b that does not
      start with a dash trims to h followed by the body without its trailing
      white space, and splits there. */
  lemma {:induction false} SplitOfPaddedHeader(p: string, h: string, i: nat, j: nat, b: string)
    requires AllWhite(p) && HeaderSplit(h, i, j)
    requires b == [] || b[0] != '-'
    ensures SplitHeader(Trim(p + h + b)) == Some((h, TrimEnd(b)))
  {
    assert h[0] == '-' && h[|h| - 1] == '-';
    assert p + h + b == p + (h + b);
    assert (h + b)[0] == '-';
    TrimStartOfPadded(p, h + b);
    TrimEndAppend(h, b);
    var rest := TrimEnd(b);
    assert rest == [] || rest[0] == b[0];
    SplitOfHeader(h, i, j, rest);
  }

  /** Round trip for every document with a header: leading white space p, a
      header h matched by the pattern with its text between the dash runs at
      [i, j), and a body b (a dash at the start of b would lengthen the closing
      run, so it belongs to h). The metadata is YAML's reading of that text, or
      {} when falsy, and the body is the trimmed b. */
  lemma {:induction false} ParseOfHeader(yaml: YamlParser, p: string, h: string, i: nat, j: nat, b: string)
    requires AllWhite(p) && HeaderSplit(h, i, j)
    requires b == [] || b[0] != '-'
    ensures Parse(yaml, p + h + b) ==
      match yaml(h[i..j])
      case Failure(reason) => Failure(YamlSyntax(reason))
      case Success(v) => Success(Document(if Truthy(v) then v else EmptyObject, Trim(b)))
  {
    var rest := TrimEnd(b);
    assert Parse(yaml, p + h + b) == ExtractYaml(yaml, h, rest) by {
      SplitOfPaddedHeader(p, h, i, j, b);
    }
    assert ParseYamlString(yaml, h) == yaml(h[i..j]) by {
      HeaderStripsToMiddle(h, i, j);
    }
    assert Trim(rest) == Trim(b) by {
      TrimOfTrimEnd(b);
    }
  }

  /** A dash inside the header text (a date such as 2017-09-05) ends the middle
      part early; the dash run there is too short to close the header, so the
      document is rejected. */
  lemma DashInHeaderFails(yaml: YamlParser, m1: string, d: string, m2: string, b: string)
    requires m1 != [] && forall k :: 0 <= k < |m1| ==> m1[k] != '-'
    requires 1 <= |d| <= 2 && forall k :: 0 <= k < |d| ==> d[k] == '-'
    requires m2 != [] && m2[0] != '-'
    ensures Parse(yaml, "---" + m1 + d + m2 + "---" + b) == Failure(NoYamlHeader)
  {
    var x := "---" + m1 + d + m2 + "---";
    assert "---" + m1 + d + m2 + "---" + b == x + b;
    TrimOfDashed(x, b);
    ShortRunNoHeader(m1, d, m2 + "---" + TrimEnd(b));
    assert x + TrimEnd(b) == "---" + m1 + d + (m2 + "---" + TrimEnd(b));
  }

  /** A run of one or two dashes after the middle part cannot close the header. */
  lemma {:induction false} ShortRunNoHeader(m1: string, d: string, m2: string)
    requires m1 != [] && forall k :: 0 <= k < |m1| ==> m1[k] != '-'
    requires 1 <= |d| <= 2 && forall k :: 0 <= k < |d| ==> d[k] == '-'
    requires m2 != [] && m2[0] != '-'
    ensures SplitHeader("---" + m1 + d + m2) == None
  {
    var t := "---" + m1 + d + m2;
    assert forall k :: 0 <= k < 3 ==> t[k] == '-';
    assert forall k :: 0 <= k < |m1| ==> t[3 + k] == m1[k];
    assert forall k :: 0 <= k < |d| ==> t[3 + |m1| + k] == d[k];
    assert t[3 + |m1| + |d|] == m2[0];
    SpanIs(t, IsDash, 3);
    var u := t[3..];
    assert forall k :: 0 <= k <= |m1| ==> u[k] == t[3 + k];
    SpanIs(u, IsNotDash, |m1|);
    var w := t[3 + |m1|..];
    assert forall k :: 0 <= k <= |d| ==> w[k] == t[3 + |m1| + k];
    SpanIs(w, IsDash, |d|);
  }

  /** The header of the form "---\ndate: 2017-09-05\n---" is not recognised. */
  lemma DateInHeaderFails(yaml: YamlParser)
    ensures Parse(yaml, "---\ndate: 2017-09-05\n---\nHello") == Failure(NoYamlHeader)
  {
    assert "---" + "\ndate: 2017" + "-" + "09-05\n" + "---" + "\nHello" == "---\ndate: 2017-09-05\n---\nHello";
    DashInHeaderFails(yaml, "\ndate: 2017", "-", "09-05\n", "\nHello");
  }
}
