/** The mixed Markdown / plugin document parser of src/parser.ts. Plugin blocks
    are found with the global pattern /<{3,}[^(>>>)]*>{3,}/ (the bracket is a
    character class: any character except '(', '>' and ')'); every block yields
    a Markdown entry and a Plugin entry holding the block's YAML. */
module PluginParser {
  import opened Wrappers
  import opened Text
  import opened JsValues
  import opened Errors
  import opened Foreign

  predicate IsOpen(c: char) { c == '<' }

  predicate IsClose(c: char) { c == '>' }

  /** The class [^(>>>)]. */
  predicate InClass(c: char) { c != '(' && c != ')' && c != '>' }

  const AngleMarks: set<char> := {'<', '>'}

  // ---------------------------------------------------------------------------
  // The pattern, as a predicate on strings

  /** b split into `<{3,}` before i, the class run before j and `>{3,}` after j. */
  ghost predicate BlockSplit(b: string, i: nat, j: nat) {
    && 3 <= i <= j <= |b| - 3
    && (forall k :: 0 <= k < i ==> b[k] == '<')
    && (forall k :: i <= k < j ==> InClass(b[k]))
    && (forall k :: j <= k < |b| ==> b[k] == '>')
  }

  /** b as a whole is matched by the block pattern. */
  ghost predicate IsBlock(b: string) {
    exists i: nat, j: nat :: BlockSplit(b, i, j)
  }

  /** No block of s starts at a position in [a, b). */
  ghost predicate NoBlockStarts(s: string, a: nat, b: nat) {
    forall q, e :: a <= q < b && q <= e <= |s| ==> !IsBlock(s[q..e])
  }

  // ---------------------------------------------------------------------------
  // Matching at one position

  /** The end of the greedy match of the pattern at position p of s, if any.
      The opening run is also in the class, so after three '<' the class run
      and the closing run decide the end. */
  function MatchAt(s: string, p: nat): (r: Option<nat>)
    requires p <= |s|
    ensures r.Some? ==> p + 6 <= r.value <= |s|
  {
    var t := s[p..];
    if Span(t, IsOpen) < 3 then None
    else
      assert forall k :: 0 <= k < 3 ==> InClass(t[k]);
      SpanAtLeast(t, InClass, 3);
      var q := Span(t, InClass);
      var c := Span(t[q..], IsClose);
      if c < 3 then None else Some(p + q + c)
  }

  /** Any block at the start of t is determined by t: its class run ends where
      t's does, and its closing run lies within the '>' that follow. */
  lemma BlockSplitIsForced(t: string, e: nat, i: nat, j: nat)
    requires e <= |t| && BlockSplit(t[..e], i, j)
    ensures 3 <= Span(t, IsOpen)
    ensures j == Span(t, InClass)
    ensures e <= j + Span(t[j..], IsClose)
  {
    var h := t[..e];
    assert forall k :: 0 <= k < e ==> h[k] == t[k];
    assert forall k :: 0 <= k < 3 ==> IsOpen(t[k]);
    SpanAtLeast(t, IsOpen, 3);
    assert forall k :: 0 <= k < j ==> InClass(t[k]);
    assert t[j] == h[j];
    SpanIs(t, InClass, j);
    var w := t[j..];
    assert forall k :: 0 <= k < e - j ==> w[k] == h[j + k];
    assert forall k :: 0 <= k < e - j ==> IsClose(w[k]);
    SpanAtLeast(w, IsClose, e - j);
  }

  /** What MatchAt finds is a block. */
  lemma MatchAtIsBlock(s: string, p: nat)
    requires p <= |s| && MatchAt(s, p).Some?
    ensures IsBlock(s[p..MatchAt(s, p).value])
  {
    var t := s[p..];
    var q := Span(t, InClass);
    var c := Span(t[q..], IsClose);
    var b := s[p..p + q + c];
    assert forall k :: 0 <= k < q + c ==> b[k] == t[k];
    assert forall k :: q <= k < q + c ==> t[k] == t[q..][k - q];
    assert BlockSplit(b, 3, q);
  }

  /** MatchAt is the regular expression at one position: the longest block
      starting at p, and nothing when no block starts there. */
  lemma MatchAtIsLongestBlock(s: string, p: nat)
    requires p <= |s|
    ensures MatchAt(s, p).Some? ==>
      IsBlock(s[p..MatchAt(s, p).value]) &&
      forall e :: MatchAt(s, p).value < e <= |s| ==> !IsBlock(s[p..e])
    ensures MatchAt(s, p).None? <==> forall e :: p <= e <= |s| ==> !IsBlock(s[p..e])
  {
    forall e | p <= e <= |s| && IsBlock(s[p..e])
      ensures MatchAt(s, p).Some? && e <= MatchAt(s, p).value
    {
      var i: nat, j: nat :| BlockSplit(s[p..e], i, j);
      var t := s[p..];
      assert s[p..e] == t[..e - p];
      BlockSplitIsForced(t, e - p, i, j);
    }
    if MatchAt(s, p).Some? {
      MatchAtIsBlock(s, p);
    }
  }

  // ---------------------------------------------------------------------------
  // The global search: exec from lastIndex, then lastIndex := end of the match

  /** exec with lastIndex == from: the leftmost position at or after from where
      the pattern matches, and the end of that match. */
  function NextMatch(s: string, from: nat): (r: Option<(nat, nat)>)
    requires from <= |s|
    ensures r.Some? ==> from <= r.value.0 && r.value.0 + 6 <= r.value.1 <= |s|
    decreases |s| - from
  {
    match MatchAt(s, from)
    case Some(e) => Some((from, e))
    case None => if from == |s| then None else NextMatch(s, from + 1)
  }

  /** NextMatch is the leftmost position from which the pattern matches. */
  lemma {:induction false} NextMatchIsLeftmost(s: string, from: nat)
    requires from <= |s|
    ensures NextMatch(s, from).Some? ==>
      var (p, e) := NextMatch(s, from).value;
      MatchAt(s, p) == Some(e) && forall q :: from <= q < p ==> MatchAt(s, q).None?
    ensures NextMatch(s, from).None? ==> forall q :: from <= q <= |s| ==> MatchAt(s, q).None?
    decreases |s| - from
  {
    if MatchAt(s, from).None? && from < |s| {
      NextMatchIsLeftmost(s, from + 1);
    }
  }

  /** The successive matches of the while loop, starting from lastIndex == from. */
  function Matches(s: string, from: nat): (r: seq<(nat, nat)>)
    requires from <= |s|
    ensures forall i :: 0 <= i < |r| ==> from <= r[i].0 && r[i].0 + 6 <= r[i].1 <= |s|
    ensures forall i :: 0 < i < |r| ==> r[i - 1].1 <= r[i].0
    decreases |s| - from
  {
    var next := NextMatch(s, from);
    if next.None? then []
    else
      var rest := Matches(s, next.value.1);
      var r := [next.value] + rest;
      assert forall i :: 0 < i < |r| ==> r[i] == rest[i - 1];
      r
  }

  /** Where the loop stops searching: the end of the last match. */
  function LastEnd(ms: seq<(nat, nat)>, from: nat): nat {
    if ms == [] then from else ms[|ms| - 1].1
  }

  /** s[p..e] is what the pattern finds when it searches s from prev: no block
      starts in [prev, p), and s[p..e] is the longest block starting at p. */
  ghost predicate LeftmostLongest(s: string, prev: nat, p: nat, e: nat)
    requires p <= e <= |s|
  {
    && NoBlockStarts(s, prev, p)
    && IsBlock(s[p..e])
    && forall e' :: e < e' <= |s| ==> !IsBlock(s[p..e'])
  }

  /** The search start for match i: `from` for the first, the previous match's end after that. */
  function SearchStart(ms: seq<(nat, nat)>, from: nat, i: nat): nat
    requires i < |ms|
  {
    if i == 0 then from else ms[i - 1].1
  }

  /** Match i is the block the pattern finds when searching from the previous match's end. */
  lemma {:induction false} MatchIsLeftmostLongest(s: string, from: nat, i: nat)
    requires from <= |s| && i < |Matches(s, from)|
    ensures var ms := Matches(s, from);
      LeftmostLongest(s, SearchStart(ms, from, i), ms[i].0, ms[i].1)
    decreases i
  {
    var ms := Matches(s, from);
    var (p, e) := NextMatch(s, from).value;
    var rest := Matches(s, e);
    assert ms == [(p, e)] + rest;
    if i == 0 {
      NextMatchIsLeftmost(s, from);
      MatchAtIsLongestBlock(s, p);
      NoMatchNoBlock(s, from, p);
    } else {
      MatchIsLeftmostLongest(s, e, i - 1);
      assert ms[i] == rest[i - 1];
      assert SearchStart(ms, from, i) == SearchStart(rest, e, i - 1);
    }
  }

  /** The matches are the blocks of s, leftmost first and each as long as possible. */
  lemma MatchesAreLeftmostLongest(s: string, from: nat)
    requires from <= |s|
    ensures var ms := Matches(s, from);
      forall i :: 0 <= i < |ms| ==> LeftmostLongest(s, SearchStart(ms, from, i), ms[i].0, ms[i].1)
  {
    forall i | 0 <= i < |Matches(s, from)|
      ensures LeftmostLongest(s, SearchStart(Matches(s, from), from, i), Matches(s, from)[i].0, Matches(s, from)[i].1)
    {
      MatchIsLeftmostLongest(s, from, i);
    }
  }

  /** After the last match the search finds nothing, because no block starts there. */
  lemma {:induction false} NoBlockAfterLastMatch(s: string, from: nat)
    requires from <= |s|
    ensures NoBlockStarts(s, LastEnd(Matches(s, from), from), |s| + 1)
    decreases |s| - from
  {
    var ms := Matches(s, from);
    match NextMatch(s, from)
    case None =>
      NextMatchIsLeftmost(s, from);
      NoMatchNoBlock(s, from, |s| + 1);
    case Some((p, e)) =>
      NoBlockAfterLastMatch(s, e);
      var rest := Matches(s, e);
      assert ms == [(p, e)] + rest;
      assert LastEnd(ms, from) == LastEnd(rest, e);
  }

  /** Positions where MatchAt finds nothing start no block. */
  lemma NoMatchNoBlock(s: string, a: nat, b: nat)
    requires a <= b <= |s| + 1
    requires forall q :: a <= q < b ==> MatchAt(s, q).None?
    ensures NoBlockStarts(s, a, b)
  {
    forall q, e | a <= q < b && q <= e <= |s|
      ensures !IsBlock(s[q..e])
    {
      MatchAtIsLongestBlock(s, q);
    }
  }

  // ---------------------------------------------------------------------------
  // The entries

  /** One element of the parser's output. */
  datatype Entry = Markdown(html: string) | Plugin(value: Value)

  /** parseYAMLString: YAML.parse of the text with every run of three or more
      '<' or of three or more '>' removed. */
  function ParsePluginYaml(yaml: YamlParser, text: string): Result<Value, string> {
    yaml(StripRuns(text, AngleMarks))
  }

  /** A block whose inner text holds no angle bracket loses exactly its delimiters. */
  lemma {:induction false} BlockStripsToMiddle(b: string, i: nat, j: nat)
    requires BlockSplit(b, i, j)
    requires forall k :: i <= k < j ==> b[k] != '<'
    ensures StripRuns(b, AngleMarks) == b[i..j]
  {
    var open, middle, close := b[..i], b[i..j], b[j..];
    assert forall k :: 0 <= k < |open| ==> open[k] == b[k];
    assert forall k :: 0 <= k < |middle| ==> middle[k] == b[i + k];
    assert forall k :: 0 <= k < |close| ==> close[k] == b[j + k];
    assert forall k :: 0 <= k < |middle| ==> middle[k] !in AngleMarks;
    assert b == open + (middle + close);
    if middle == [] {
      assert middle + close == close;
      StripRunsAppend(open, close, AngleMarks);
    } else {
      StripRunsAppend(open, middle + close, AngleMarks);
      StripRunsAppend(middle, close, AngleMarks);
    }
    StripRunsOneRun(open, '<', AngleMarks);
    StripRunsNoMarks(middle, AngleMarks);
    StripRunsOneRun(close, '>', AngleMarks);
  }

  /** The texts one loop iteration hands to the renderers: the Markdown text
      and the plugin text. */
  type Piece = (string, string)

  /** The pieces as src/parser.ts computes them: both slices are taken from the
      stream that has already lost everything up to the previous match's end,
      with the match's indices into the whole document. */
  function AsWrittenPieces(ms: seq<(nat, nat)>, stream: string): (r: seq<Piece>)
    ensures |r| == |ms|
  {
    if ms == [] then []
    else
      [(SliceFrom(stream, ms[0].0), Slice(stream, ms[0].0, ms[0].1))]
        + AsWrittenPieces(ms[1..], SliceFrom(stream, ms[0].1))
  }

  /** The pieces as the parser means them: the Markdown between the previous
      block and this one, and the block itself, both cut from the document. */
  function IntendedPieces(s: string, ms: seq<(nat, nat)>, prev: nat): (r: seq<Piece>)
    ensures |r| == |ms|
  {
    if ms == [] then []
    else
      [(Slice(s, prev, ms[0].0), Slice(s, ms[0].0, ms[0].1))]
        + IntendedPieces(s, ms[1..], ms[0].1)
  }

  /** The result of a run of the loop over the given pieces: a Markdown entry
      and a Plugin entry for each, or the first YAML error. */
  function Render(pieces: seq<Piece>, yaml: YamlParser, markdown: string -> string): (r: Result<seq<Entry>, Error>)
    ensures r.Success? ==> |r.value| == 2 * |pieces|
    ensures r.Failure? ==> r.error.YamlSyntax?
  {
    if pieces == [] then Success([])
    else
      match ParsePluginYaml(yaml, pieces[0].1)
      case Failure(reason) => Failure(YamlSyntax(reason))
      case Success(v) =>
        match Render(pieces[1..], yaml, markdown)
        case Failure(e) => Failure(e)
        case Success(rest) => Success([Markdown(markdown(pieces[0].0)), Plugin(v)] + rest)
  }

  /** Entry 2i is the rendered Markdown text of piece i and entry 2i+1 the parsed
      YAML of its plugin text; the parse succeeds exactly when every plugin
      text is valid YAML. */
  lemma {:induction false} RenderShape(pieces: seq<Piece>, yaml: YamlParser, markdown: string -> string)
    ensures Render(pieces, yaml, markdown).Success? <==>
      forall i :: 0 <= i < |pieces| ==> ParsePluginYaml(yaml, pieces[i].1).Success?
    ensures Render(pieces, yaml, markdown).Success? ==>
      forall i :: 0 <= i < |pieces| ==>
        && Render(pieces, yaml, markdown).value[2 * i] == Markdown(markdown(pieces[i].0))
        && Render(pieces, yaml, markdown).value[2 * i + 1] == Plugin(ParsePluginYaml(yaml, pieces[i].1).value)
  {
    if pieces != [] {
      RenderShape(pieces[1..], yaml, markdown);
      assert forall i :: 1 <= i < |pieces| ==> pieces[i] == pieces[1..][i - 1];
      var r := Render(pieces, yaml, markdown);
      if r.Success? {
        var rest := Render(pieces[1..], yaml, markdown).value;
        assert r.value == [r.value[0], r.value[1]] + rest;
        forall i | 1 <= i < |pieces|
          ensures r.value[2 * i] == rest[2 * (i - 1)] && r.value[2 * i + 1] == rest[2 * (i - 1) + 1]
        {
        }
      }
    }
  }

  /** `prefix` followed by the entries of a successful run; a failure stays a failure. */
  function Prepend(prefix: seq<Entry>, r: Result<seq<Entry>, Error>): (p: Result<seq<Entry>, Error>)
    ensures p.Failure? <==> r.Failure?
    ensures p.Success? ==> p.value == prefix + r.value
  {
    match r
    case Failure(e) => Failure(e)
    case Success(es) => Success(prefix + es)
  }

  /** One step of a run: the first piece either fails or adds its two entries. */
  lemma RenderStep(prefix: seq<Entry>, piece: Piece, rest: seq<Piece>, yaml: YamlParser, markdown: string -> string)
    ensures var parsed := ParsePluginYaml(yaml, piece.1);
      Prepend(prefix, Render([piece] + rest, yaml, markdown)) ==
        if parsed.Failure? then Failure(YamlSyntax(parsed.error))
        else Prepend(prefix + [Markdown(markdown(piece.0)), Plugin(parsed.value)], Render(rest, yaml, markdown))
  {
    assert ([piece] + rest)[1..] == rest;
    var parsed := ParsePluginYaml(yaml, piece.1);
    var tail := Render(rest, yaml, markdown);
    if parsed.Success? && tail.Success? {
      var two := [Markdown(markdown(piece.0)), Plugin(parsed.value)];
      assert prefix + (two + tail.value) == (prefix + two) + tail.value;
    }
  }

  /** Prepending nothing changes nothing. */
  lemma PrependEmpty(r: Result<seq<Entry>, Error>)
    ensures Prepend([], r) == r
  {
    if r.Success? {
      assert [] + r.value == r.value;
    }
  }

  /** The pieces of the as-written loop, one match at a time. */
  lemma AsWrittenStep(s: string, from: nat, stream: string)
    requires from <= |s| && NextMatch(s, from).Some?
    ensures var (p, e) := NextMatch(s, from).value;
      AsWrittenPieces(Matches(s, from), stream)
        == [(SliceFrom(stream, p), Slice(stream, p, e))] + AsWrittenPieces(Matches(s, e), SliceFrom(stream, e))
  {
    var (p, e) := NextMatch(s, from).value;
    assert Matches(s, from) == [(p, e)] + Matches(s, e);
    assert Matches(s, from)[1..] == Matches(s, e);
  }

  /** The pieces of the corrected loop, one match at a time. */
  lemma IntendedStep(s: string, from: nat)
    requires from <= |s| && NextMatch(s, from).Some?
    ensures var (p, e) := NextMatch(s, from).value;
      IntendedPieces(s, Matches(s, from), from)
        == [(s[from..p], s[p..e])] + IntendedPieces(s, Matches(s, e), e)
  {
    var (p, e) := NextMatch(s, from).value;
    assert Matches(s, from) == [(p, e)] + Matches(s, e);
    assert Matches(s, from)[1..] == Matches(s, e);
  }

  /** One turn of the as-written loop against the specification: the match's
      YAML fails, or its two entries are added and the search goes on from its end. */
  lemma AsWrittenAdvance(s: string, from: nat, stream: string, prefix: seq<Entry>, yaml: YamlParser, markdown: string -> string)
    requires from <= |s| && NextMatch(s, from).Some?
    ensures var (p, e) := NextMatch(s, from).value;
      var parsed := ParsePluginYaml(yaml, Slice(stream, p, e));
      Prepend(prefix, Render(AsWrittenPieces(Matches(s, from), stream), yaml, markdown)) ==
        if parsed.Failure? then Failure(YamlSyntax(parsed.error))
        else Prepend(prefix + [Markdown(markdown(SliceFrom(stream, p))), Plugin(parsed.value)],
          Render(AsWrittenPieces(Matches(s, e), SliceFrom(stream, e)), yaml, markdown))
  {
    var (p, e) := NextMatch(s, from).value;
    AsWrittenStep(s, from, stream);
    RenderStep(prefix, (SliceFrom(stream, p), Slice(stream, p, e)), AsWrittenPieces(Matches(s, e), SliceFrom(stream, e)), yaml, markdown);
  }

  /** One turn of the corrected loop against the specification. */
  lemma IntendedAdvance(s: string, from: nat, prefix: seq<Entry>, yaml: YamlParser, markdown: string -> string)
    requires from <= |s| && NextMatch(s, from).Some?
    ensures var (p, e) := NextMatch(s, from).value;
      var parsed := ParsePluginYaml(yaml, s[p..e]);
      Prepend(prefix, Render(IntendedPieces(s, Matches(s, from), from), yaml, markdown)) ==
        if parsed.Failure? then Failure(YamlSyntax(parsed.error))
        else Prepend(prefix + [Markdown(markdown(s[from..p])), Plugin(parsed.value)],
          Render(IntendedPieces(s, Matches(s, e), e), yaml, markdown))
  {
    var (p, e) := NextMatch(s, from).value;
    IntendedStep(s, from);
    RenderStep(prefix, (s[from..p], s[p..e]), IntendedPieces(s, Matches(s, e), e), yaml, markdown);
  }

  /** When the search finds nothing more, the entries gathered so far are the result. */
  lemma NoMoreMatches(s: string, from: nat, prefix: seq<Entry>, pieces: seq<Piece>, yaml: YamlParser, markdown: string -> string)
    requires from <= |s| && NextMatch(s, from).None?
    requires |pieces| == |Matches(s, from)|
    ensures Prepend(prefix, Render(pieces, yaml, markdown)) == Success(prefix)
  {
    assert pieces == [];
    assert prefix + [] == prefix;
  }

  /** parse(burrito), as written: the loop over the matches of the whole
      document, slicing the shortened stream. YAML errors propagate. */
  method Parse(burrito: string, yaml: YamlParser, markdown: string -> string) returns (r: Result<seq<Entry>, Error>)
    ensures r == Render(AsWrittenPieces(Matches(burrito, 0), burrito), yaml, markdown)
  {
    ghost var spec := Render(AsWrittenPieces(Matches(burrito, 0), burrito), yaml, markdown);
    var result: seq<Entry> := [];
    var stream := burrito;
    var lastIndex: nat := 0;
    PrependEmpty(spec);
    while true
      invariant lastIndex <= |burrito|
      invariant spec == Prepend(result, Render(AsWrittenPieces(Matches(burrito, lastIndex), stream), yaml, markdown))
      decreases |burrito| - lastIndex
    {
      var m := NextMatch(burrito, lastIndex);
      if m.None? {
        NoMoreMatches(burrito, lastIndex, result, AsWrittenPieces(Matches(burrito, lastIndex), stream), yaml, markdown);
        return Success(result);
      }
      var start, end := m.value.0, m.value.1;
      AsWrittenAdvance(burrito, lastIndex, stream, result, yaml, markdown);
      var text := Markdown(markdown(SliceFrom(stream, start)));
      var parsed := ParsePluginYaml(yaml, Slice(stream, start, end));
      if parsed.Failure? {
        return Failure(YamlSyntax(parsed.error));
      }
      result := result + [text, Plugin(parsed.value)];
      stream := SliceFrom(stream, end);
      lastIndex := end;
    }
  }

  /** The corrected parser: the Markdown between blocks and the blocks
      themselves, both cut from the document. */
  method ParseCorrected(burrito: string, yaml: YamlParser, markdown: string -> string) returns (r: Result<seq<Entry>, Error>)
    ensures r == Render(IntendedPieces(burrito, Matches(burrito, 0), 0), yaml, markdown)
  {
    ghost var spec := Render(IntendedPieces(burrito, Matches(burrito, 0), 0), yaml, markdown);
    var result: seq<Entry> := [];
    var lastIndex: nat := 0;
    PrependEmpty(spec);
    while true
      invariant lastIndex <= |burrito|
      invariant spec == Prepend(result, Render(IntendedPieces(burrito, Matches(burrito, lastIndex), lastIndex), yaml, markdown))
      decreases |burrito| - lastIndex
    {
      var m := NextMatch(burrito, lastIndex);
      if m.None? {
        NoMoreMatches(burrito, lastIndex, result, IntendedPieces(burrito, Matches(burrito, lastIndex), lastIndex), yaml, markdown);
        return Success(result);
      }
      var start, end := m.value.0, m.value.1;
      IntendedAdvance(burrito, lastIndex, result, yaml, markdown);
      var text := Markdown(markdown(burrito[lastIndex..start]));
      var parsed := ParsePluginYaml(yaml, burrito[start..end]);
      if parsed.Failure? {
        return Failure(YamlSyntax(parsed.error));
      }
      result := result + [text, Plugin(parsed.value)];
      lastIndex := end;
    }
  }

  // ---------------------------------------------------------------------------
  // What the pieces are

  /** The text of the pieces, in order. */
  function Flatten(pieces: seq<Piece>): string {
    if pieces == [] then [] else pieces[0].0 + pieces[0].1 + Flatten(pieces[1..])
  }

  /** In the corrected parser, plugin text i is the text of match i. */
  lemma {:induction false} IntendedPluginIsMatch(s: string, from: nat, i: nat)
    requires from <= |s| && i < |Matches(s, from)|
    ensures var ms := Matches(s, from);
      IntendedPieces(s, ms, from)[i].1 == s[ms[i].0..ms[i].1]
    decreases i
  {
    var ms := Matches(s, from);
    var (p, e) := NextMatch(s, from).value;
    IntendedStep(s, from);
    assert ms == [(p, e)] + Matches(s, e);
    if i > 0 {
      IntendedPluginIsMatch(s, e, i - 1);
      assert ms[i] == Matches(s, e)[i - 1];
    }
  }

  /** The pieces of the corrected parser put back together are the document
      from `from` up to the end of the last block. */
  lemma {:induction false} IntendedPiecesCover(s: string, from: nat)
    requires from <= |s|
    ensures from <= LastEnd(Matches(s, from), from) <= |s|
    ensures Flatten(IntendedPieces(s, Matches(s, from), from)) == s[from..LastEnd(Matches(s, from), from)]
    decreases |s| - from
  {
    var ms := Matches(s, from);
    if ms != [] {
      var (p, e) := NextMatch(s, from).value;
      var rest := Matches(s, e);
      assert ms == [(p, e)] + rest;
      IntendedStep(s, from);
      IntendedPiecesCover(s, e);
      var tail := IntendedPieces(s, rest, e);
      var last := LastEnd(rest, e);
      assert LastEnd(ms, from) == last;
      FlattenStep(s, from, p, e, last, tail);
    }
  }

  lemma FlattenStep(s: string, from: nat, p: nat, e: nat, last: nat, tail: seq<Piece>)
    requires from <= p <= e <= last <= |s|
    requires Flatten(tail) == s[e..last]
    ensures Flatten([(s[from..p], s[p..e])] + tail) == s[from..last]
  {
    var ps := [(s[from..p], s[p..e])] + tail;
    assert ps[1..] == tail;
    assert s[from..last] == s[from..p] + s[p..e] + s[e..last];
  }

  /** The first plugin text of the as-written parser is the first block: the
      stream is still the whole document then. It holds by unfolding the two
      definitions at their first match, so the body is empty. */
  lemma FirstPieceAgrees(s: string)
    requires Matches(s, 0) != []
    ensures AsWrittenPieces(Matches(s, 0), s)[0].1 == IntendedPieces(s, Matches(s, 0), 0)[0].1
  {
  }

  // ---------------------------------------------------------------------------
  // A document made of two adjacent blocks

  /** Three '<' at p, class characters up to q, and exactly three '>' after
      them: the match at p ends after those three. */
  lemma MatchAtSimpleBlock(s: string, p: nat, q: nat)
    requires p + 3 <= q && q + 3 <= |s|
    requires forall k :: p <= k < p + 3 ==> s[k] == '<'
    requires forall k :: p + 3 <= k < q ==> InClass(s[k])
    requires forall k :: q <= k < q + 3 ==> s[k] == '>'
    requires q + 3 == |s| || s[q + 3] != '>'
    ensures MatchAt(s, p) == Some(q + 3)
  {
    var t := s[p..];
    assert Span(t, IsOpen) >= 3 by {
      assert forall k :: 0 <= k < 3 ==> IsOpen(t[k]) by {
        assert forall k :: 0 <= k < 3 ==> t[k] == s[p + k];
      }
      SpanAtLeast(t, IsOpen, 3);
    }
    assert Span(t, InClass) == q - p by {
      assert forall k :: 0 <= k < q - p ==> InClass(t[k]) by {
        assert forall k :: 0 <= k < q - p ==> t[k] == s[p + k];
      }
      assert t[q - p] == s[q];
      SpanIs(t, InClass, q - p);
    }
    var w := t[q - p..];
    assert Span(w, IsClose) == 3 by {
      assert forall k :: 0 <= k < |w| ==> w[k] == s[q + k];
      SpanIs(w, IsClose, 3);
    }
  }

  /** The block "<<<" + m + ">>>", position by position. */
  lemma SimpleBlockChars(m: string)
    ensures var b := "<<<" + m + ">>>";
      && |b| == |m| + 6
      && (forall k :: 0 <= k < 3 ==> b[k] == '<')
      && (forall k :: 3 <= k < 3 + |m| ==> b[k] == m[k - 3])
      && (forall k :: 3 + |m| <= k < |b| ==> b[k] == '>')
  {
    var b := "<<<" + m + ">>>";
    assert b[..3] == "<<<";
    assert b[3..3 + |m|] == m;
    assert b[3 + |m|..] == ">>>";
    assert forall k :: 0 <= k < 3 ==> b[k] == b[..3][k];
    assert forall k :: 3 + |m| <= k < |b| ==> b[k] == b[3 + |m|..][k - 3 - |m|];
  }

  /** The search from the end of a string finds nothing. */
  lemma NoMatchAtEnd(s: string)
    ensures Matches(s, |s|) == []
  {
    assert s[|s|..] == [];
    assert MatchAt(s, |s|) == None;
  }

  /** Two adjacent blocks are the two matches of the document. */
  lemma TwoBlocksMatches(m1: string, m2: string)
    requires forall k :: 0 <= k < |m1| ==> InClass(m1[k])
    requires forall k :: 0 <= k < |m2| ==> InClass(m2[k])
    ensures var b1, b2 := "<<<" + m1 + ">>>", "<<<" + m2 + ">>>";
      Matches(b1 + b2, 0) == [(0, |b1|), (|b1|, |b1 + b2|)]
  {
    var b1, b2 := "<<<" + m1 + ">>>", "<<<" + m2 + ">>>";
    var s := b1 + b2;
    SimpleBlockChars(m1);
    SimpleBlockChars(m2);
    assert forall k :: 0 <= k < |b1| ==> s[k] == b1[k];
    assert forall k :: 0 <= k < |b2| ==> s[|b1| + k] == b2[k];
    MatchAtSimpleBlock(s, 0, |m1| + 3);
    assert forall k :: |b1| + 3 <= k < |b1| + 3 + |m2| ==> s[k] == b2[k - |b1|];
    assert forall k :: |b1| + 3 + |m2| <= k < |s| ==> s[k] == b2[k - |b1|];
    MatchAtSimpleBlock(s, |b1|, |b1| + |m2| + 3);
    NoMatchAtEnd(s);
    assert Matches(s, |b1|) == [(|b1|, |s|)];
    assert NextMatch(s, 0) == Some((0, |b1|));
  }

  /** The as-written pieces of a single match. */
  lemma AsWrittenOne(m: (nat, nat), stream: string)
    ensures AsWrittenPieces([m], stream) == [(SliceFrom(stream, m.0), Slice(stream, m.0, m.1))]
  {
    assert [m][1..] == [];
  }

  /** The as-written pieces of a document whose matches are [0, e) and [e, |s|). */
  lemma AsWrittenOfTwo(s: string, e: nat)
    requires 0 < e <= |s|
    ensures AsWrittenPieces([(0, e), (e, |s|)], s)
      == [(s, s[..e]), (SliceFrom(s[e..], e), SliceFrom(s[e..], e))]
  {
    var ms: seq<(nat, nat)> := [(0, e), (e, |s|)];
    assert ms[1..] == [(e, |s|)];
    assert AsWrittenPieces(ms, s) == [(SliceFrom(s, 0), Slice(s, 0, e))] + AsWrittenPieces([(e, |s|)], SliceFrom(s, e));
    AsWrittenOne((e, |s|), s[e..]);
    SliceToEnd(s[e..], e, |s|);
    assert SliceFrom(s, 0) == s;
  }

  /** The corrected pieces of a document whose matches are [0, e) and [e, |s|). */
  lemma IntendedOfTwo(s: string, e: nat)
    requires 0 < e <= |s|
    ensures IntendedPieces(s, [(0, e), (e, |s|)], 0) == [([], s[..e]), ([], s[e..])]
  {
    var ms: seq<(nat, nat)> := [(0, e), (e, |s|)];
    assert ms[1..] == [(e, |s|)];
    var none: string := [];
    assert Slice(s, 0, 0) == none && Slice(s, e, e) == none;
    assert Slice(s, 0, e) == s[..e] && Slice(s, e, |s|) == s[e..];
    var second := IntendedPieces(s, ms[1..], e);
    assert second == [(none, s[e..])] + IntendedPieces(s, [], |s|);
    assert IntendedPieces(s, ms, 0) == [(none, s[..e])] + second;
  }

  /** As written, the second iteration slices the shortened stream at the
      second block's indices into the whole document: both texts it hands on
      are the part of the second block beyond the first block's length, never
      the second block itself; the first Markdown text is the whole document. */
  lemma TwoBlocksAsWritten(m1: string, m2: string)
    requires forall k :: 0 <= k < |m1| ==> InClass(m1[k])
    requires forall k :: 0 <= k < |m2| ==> InClass(m2[k])
    ensures var b1, b2 := "<<<" + m1 + ">>>", "<<<" + m2 + ">>>";
      && AsWrittenPieces(Matches(b1 + b2, 0), b1 + b2) == [(b1 + b2, b1), (SliceFrom(b2, |b1|), SliceFrom(b2, |b1|))]
      && SliceFrom(b2, |b1|) != b2
  {
    var b1, b2 := "<<<" + m1 + ">>>", "<<<" + m2 + ">>>";
    var s := b1 + b2;
    TwoBlocksMatches(m1, m2);
    AsWrittenOfTwo(s, |b1|);
    assert s[..|b1|] == b1 && s[|b1|..] == b2;
  }

  /** The corrected pieces of the same document: no text before either block,
      and the two blocks. */
  lemma TwoBlocksIntended(m1: string, m2: string)
    requires forall k :: 0 <= k < |m1| ==> InClass(m1[k])
    requires forall k :: 0 <= k < |m2| ==> InClass(m2[k])
    ensures var b1, b2 := "<<<" + m1 + ">>>", "<<<" + m2 + ">>>";
      IntendedPieces(b1 + b2, Matches(b1 + b2, 0), 0) == [([], b1), ([], b2)]
  {
    var b1, b2 := "<<<" + m1 + ">>>", "<<<" + m2 + ">>>";
    var s := b1 + b2;
    TwoBlocksMatches(m1, m2);
    IntendedOfTwo(s, |b1|);
    assert s[..|b1|] == b1 && s[|b1|..] == b2;
  }
}
