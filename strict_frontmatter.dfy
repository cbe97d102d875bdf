/** Front matter extraction as src/engine/parser.ts does it: the same header
    pattern as the compiler's parser, but the parsed header must be an object
    whose `layout` is a string. */
module StrictFrontmatter {
  import opened Wrappers
  import opened Text
  import opened JsValues
  import opened Errors
  import opened Foreign
  import Frontmatter

  /** `typeof metadata.layout === "string"`. */
  predicate HasStringLayout(v: Value) {
    v.Obj? && "layout" in v.fields && v.fields["layout"].Str?
  }

  /** extractYAML: null is an invalid header, a header without a string layout
      is refused, otherwise the parsed header is the metadata as it is. */
  function ExtractYaml(yaml: YamlParser, header: string, rest: string): (r: Result<Frontmatter.Document, Error>)
    ensures r.Success? ==> HasStringLayout(r.value.metadata) && IsTrimmed(r.value.body)
    ensures r.Success? ==> Frontmatter.ParseYamlString(yaml, header) == Success(r.value.metadata)
    ensures r.Success? ==> r.value.body == Trim(rest)
    ensures r.Success? <==>
      Frontmatter.ParseYamlString(yaml, header).Success? && HasStringLayout(Frontmatter.ParseYamlString(yaml, header).value)
    ensures Frontmatter.ParseYamlString(yaml, header).Failure? ==>
      r == Failure(YamlSyntax(Frontmatter.ParseYamlString(yaml, header).error))
    ensures r == Failure(InvalidYamlHeader) <==> Frontmatter.ParseYamlString(yaml, header) == Success(Null)
    ensures r == Failure(LayoutPropertyMissing) <==>
      exists v :: Frontmatter.ParseYamlString(yaml, header) == Success(v) && v != Null && !HasStringLayout(v)
  {
    match Frontmatter.ParseYamlString(yaml, header)
    case Failure(reason) => Failure(YamlSyntax(reason))
    case Success(v) =>
      if v == Null then Failure(InvalidYamlHeader)
      else if !HasStringLayout(v) then Failure(LayoutPropertyMissing)
      else Success(Frontmatter.Document(v, Trim(rest)))
  }

  /** parse: the trimmed document must open with a header; its metadata must name a layout. */
  function Parse(yaml: YamlParser, burrito: string): (r: Result<Frontmatter.Document, Error>)
    ensures r == Failure(NoYamlHeader) <==> Frontmatter.SplitHeader(Trim(burrito)).None?
    ensures r.Success? ==> HasStringLayout(r.value.metadata) && IsTrimmed(r.value.body)
  {
    var split := Frontmatter.SplitHeader(Trim(burrito));
    if split.None? then Failure(NoYamlHeader)
    else ExtractYaml(yaml, split.value.0, split.value.1)
  }

  /** "Could not find yaml header" exactly when no prefix of the trimmed
      document matches the header pattern. */
  lemma ParseHeaderless(yaml: YamlParser, burrito: string)
    ensures Parse(yaml, burrito) == Failure(NoYamlHeader) <==> Frontmatter.HeaderFree(Trim(burrito))
  {
    Frontmatter.SplitHeaderNoneIff(Trim(burrito));
  }

  /** The engine's parser accepts a subset of what the compiler's accepts, and
      on that subset the two agree; the compiler's parser accepts everything
      else the engine's does not refuse for a missing header or bad YAML. */
  lemma StrictAgreesWithLenient(yaml: YamlParser, burrito: string)
    ensures Parse(yaml, burrito).Success? ==> Frontmatter.Parse(yaml, burrito) == Parse(yaml, burrito)
    ensures Frontmatter.Parse(yaml, burrito).Success? && HasStringLayout(Frontmatter.Parse(yaml, burrito).value.metadata)
      ==> Parse(yaml, burrito) == Frontmatter.Parse(yaml, burrito)
    ensures Parse(yaml, burrito) == Failure(NoYamlHeader) <==> Frontmatter.Parse(yaml, burrito) == Failure(NoYamlHeader)
  {
    var split := Frontmatter.SplitHeader(Trim(burrito));
    if split.Some? {
      var header, rest := split.value.0, split.value.1;
      assert Parse(yaml, burrito) == ExtractYaml(yaml, header, rest);
      assert Frontmatter.Parse(yaml, burrito) == Frontmatter.ExtractYaml(yaml, header, rest);
      var parsed := Frontmatter.ParseYamlString(yaml, header);
      if parsed.Success? {
        var v := parsed.value;
        assert !HasStringLayout(EmptyObject);
        if v != Null && HasStringLayout(v) {
          assert Truthy(v);
        }
      }
    }
  }

  /** Round trip for a document built as "---" + m + "---" + b. */
  lemma StrictRoundTrip(yaml: YamlParser, m: string, b: string)
    requires m != [] && forall k :: 0 <= k < |m| ==> m[k] != '-'
    requires b == [] || b[0] != '-'
    ensures Parse(yaml, "---" + m + "---" + b) ==
      match yaml(m)
      case Failure(reason) => Failure(YamlSyntax(reason))
      case Success(v) =>
        if v == Null then Failure(InvalidYamlHeader)
        else if !HasStringLayout(v) then Failure(LayoutPropertyMissing)
        else Success(Frontmatter.Document(v, Trim(b)))
  {
    var x := "---" + m + "---";
    assert "---" + m + "---" + b == x + b;
    Frontmatter.TrimOfDashed(x, b);
    var rest := TrimEnd(b);
    assert rest == [] || rest[0] == b[0];
    assert x + rest == "---" + m + "---" + rest;
    Frontmatter.SplitOfConstructed(m, rest);
    Frontmatter.StripOfConstructed(m);
    TrimOfTrimEnd(b);
  }

  /** Round trip for every document with a header: leading white space p, a
      header h matched by the pattern with its text between the dash runs at
      [i, j), and a body b that does not start with a dash. */
  lemma {:induction false} StrictParseOfHeader(yaml: YamlParser, p: string, h: string, i: nat, j: nat, b: string)
    requires AllWhite(p) && Frontmatter.HeaderSplit(h, i, j)
    requires b == [] || b[0] != '-'
    ensures Parse(yaml, p + h + b) ==
      match yaml(h[i..j])
      case Failure(reason) => Failure(YamlSyntax(reason))
      case Success(v) =>
        if v == Null then Failure(InvalidYamlHeader)
        else if !HasStringLayout(v) then Failure(LayoutPropertyMissing)
        else Success(Frontmatter.Document(v, Trim(b)))
  {
    var rest := TrimEnd(b);
    assert Parse(yaml, p + h + b) == ExtractYaml(yaml, h, rest) by {
      Frontmatter.SplitOfPaddedHeader(p, h, i, j, b);
    }
    assert Frontmatter.ParseYamlString(yaml, h) == yaml(h[i..j]) by {
      Frontmatter.HeaderStripsToMiddle(h, i, j);
    }
    assert Trim(rest) == Trim(b) by {
      TrimOfTrimEnd(b);
    }
  }
}
