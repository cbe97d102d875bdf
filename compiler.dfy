/** The page compiler of src/compiler/compiler.ts: a registry of layouts and a
    Handlebars environment, front matter merged with site defaults, and
    dispatch on the page's extension. */
module Compiler {
  import opened Wrappers
  import opened Text
  import opened JsValues
  import opened Errors
  import opened Foreign
  import opened Definitions
  import Frontmatter

  /** What compile returns: the merged metadata and the page body. */
  datatype Page = Page(metadata: Value, body: string)

  /** mergeDefaultsWithPageMetadata: Object.assign(metadata, defaults). Every key
      of either side is present; where both have a key, the default wins. */
  function MergeDefaultsWithPageMetadata(defaults: Value, metadata: Value): (r: Value)
    ensures r.Obj?
    ensures forall k :: k in r.fields <==> k in Own(metadata) || k in Own(defaults)
    ensures forall k :: k in Own(defaults) ==> r.fields[k] == Own(defaults)[k]
    ensures forall k :: k in Own(metadata) && k !in Own(defaults) ==> r.fields[k] == Own(metadata)[k]
  {
    Obj(Own(metadata) + Own(defaults))
  }

  /** Merging the same defaults again changes nothing. */
  lemma MergeIdempotent(defaults: Value, metadata: Value)
    ensures var once := MergeDefaultsWithPageMetadata(defaults, metadata);
      MergeDefaultsWithPageMetadata(defaults, once) == once
  {
    var once := MergeDefaultsWithPageMetadata(defaults, metadata);
    var twice := MergeDefaultsWithPageMetadata(defaults, once);
    assert twice.fields.Keys == once.fields.Keys;
  }

  /** The function-valued properties every object literal inherits from
      Object.prototype. The layout table is the literal `{}`, so for these names
      `this.layouts[name] instanceof Function` holds with no layout registered. */
  const InheritedMethods: set<string> := {
    "constructor", "hasOwnProperty", "isPrototypeOf", "propertyIsEnumerable",
    "toLocaleString", "toString", "valueOf",
    "__defineGetter__", "__defineSetter__", "__lookupGetter__", "__lookupSetter__"}

  /** checkLayoutExists: "Layout not found" exactly when the name is neither a
      registered layout nor an inherited method. */
  function CheckLayoutExists(layouts: map<string, string>, name: string): (r: Outcome<Error>)
    ensures r.Fail? <==> name !in layouts && name !in InheritedMethods
    ensures r.Fail? ==> r.error == LayoutNotFound
  {
    if name in layouts || name in InheritedMethods then Pass else Fail(LayoutNotFound)
  }

  /** The layout a page asks for: `metadata.layout` used as a property name. */
  function LayoutName(metadata: Value): string {
    PropertyKey(Get(metadata, "layout"))
  }

  /** The context a layout is called with. */
  function LayoutContext(body: string, metadata: Value, site: Value): (r: Value)
    ensures r.Obj? && r.fields.Keys == {"content", "metadata", "site"}
    ensures r.fields["content"] == Str(body) && r.fields["metadata"] == metadata && r.fields["site"] == site
  {
    Obj(map["content" := Str(body), "metadata" := metadata, "site" := site])
  }

  /** A run of a Handlebars template; the exception it throws becomes the build's error. */
  function Expand(libs: Libraries, bars: Bars, template: string, context: Value): Result<string, Error> {
    match libs.expand(bars, template, context)
    case Failure(reason) => Failure(TemplateFailed(reason))
    case Success(text) => Success(text)
  }

  /** The body a page of the given extension gets from its trimmed source text:
      .html as it is, anything else through Handlebars, and .md then through
      Markdown. */
  function Dispatch(libs: Libraries, bars: Bars, extension: string, body: string, metadata: Value): (r: Result<string, Error>)
    ensures extension == ".html" ==> r == Success(body)
    ensures r.Failure? <==> extension != ".html" && libs.expand(bars, body, metadata).Failure?
    ensures r.Failure? ==> r.error == TemplateFailed(libs.expand(bars, body, metadata).error)
    ensures extension == ".md" && r.Success? ==> r.value == libs.markdown(libs.expand(bars, body, metadata).value)
    ensures extension != ".html" && extension != ".md" && r.Success? ==> r.value == libs.expand(bars, body, metadata).value
  {
    if extension == ".html" then Success(body)
    else
      match Expand(libs, bars, body, metadata)
      case Failure(e) => Failure(e)
      case Success(text) => Success(if extension == ".md" then libs.markdown(text) else text)
  }

  /** compile: parse the front matter, merge the defaults, and produce the body
      according to the extension. Parse errors and template errors propagate. */
  function CompileDocument(libs: Libraries, bars: Bars, document: string, defaults: Value, extension: string): (r: Result<Page, Error>)
    ensures Frontmatter.Parse(libs.yaml, document).Failure? ==> r == Failure(Frontmatter.Parse(libs.yaml, document).error)
    ensures r.Success? ==> Frontmatter.Parse(libs.yaml, document).Success?
    ensures r.Success? ==>
      r.value.metadata == MergeDefaultsWithPageMetadata(defaults, Frontmatter.Parse(libs.yaml, document).value.metadata)
    ensures r.Failure? && Frontmatter.Parse(libs.yaml, document).Success? ==> extension != ".html" && r.error.TemplateFailed?
  {
    match Frontmatter.Parse(libs.yaml, document)
    case Failure(e) => Failure(e)
    case Success(parsed) =>
      var metadata := MergeDefaultsWithPageMetadata(defaults, parsed.metadata);
      match Dispatch(libs, bars, extension, parsed.body, metadata)
      case Failure(e) => Failure(e)
      case Success(body) => Success(Page(metadata, body))
  }

  /** A document without a header is refused with the parser's error. */
  lemma CompileHeaderless(libs: Libraries, bars: Bars, document: string, defaults: Value, extension: string)
    requires Frontmatter.HeaderFree(Trim(document))
    ensures CompileDocument(libs, bars, document, defaults, extension) == Failure(NoYamlHeader)
  {
    Frontmatter.ParseHeaderless(libs.yaml, document);
  }

  /** An .html page never goes through Handlebars or Markdown: its result does
      not depend on either library. */
  lemma HtmlIsVerbatim(libs: Libraries, other: Libraries, bars: Bars, document: string, defaults: Value)
    requires libs.yaml == other.yaml
    ensures CompileDocument(libs, bars, document, defaults, ".html")
      == CompileDocument(other, bars, document, defaults, ".html")
  {
  }

  /** Any page other than .md never goes through Markdown. */
  lemma OnlyMarkdownRendersMarkdown(libs: Libraries, other: Libraries, bars: Bars, document: string, defaults: Value, extension: string)
    requires libs.yaml == other.yaml && libs.expand == other.expand
    requires extension != ".md"
    ensures CompileDocument(libs, bars, document, defaults, extension)
      == CompileDocument(other, bars, document, defaults, extension)
  {
    var parsed := Frontmatter.Parse(libs.yaml, document);
    assert Frontmatter.Parse(other.yaml, document) == parsed;
    if parsed.Success? {
      var metadata := MergeDefaultsWithPageMetadata(defaults, parsed.value.metadata);
      DispatchWithoutMarkdown(libs, other, bars, extension, parsed.value.body, metadata);
      CompileOfParsed(libs, bars, document, defaults, extension, parsed.value);
      CompileOfParsed(other, bars, document, defaults, extension, parsed.value);
    }
  }

  /** Outside .md, the dispatch never calls the Markdown renderer. */
  lemma DispatchWithoutMarkdown(libs: Libraries, other: Libraries, bars: Bars, extension: string, body: string, metadata: Value)
    requires libs.expand == other.expand
    requires extension != ".md"
    ensures Dispatch(libs, bars, extension, body, metadata) == Dispatch(other, bars, extension, body, metadata)
  {
    assert Expand(libs, bars, body, metadata) == Expand(other, bars, body, metadata);
  }

  /** Compiling "---" + m + "---" + b: the metadata is YAML's reading of m (or
      {}) overwritten by the defaults, and the body is the trimmed b passed
      through the extension's pipeline. */
  lemma CompileRoundTrip(libs: Libraries, bars: Bars, m: string, b: string, defaults: Value, extension: string)
    requires m != [] && forall k :: 0 <= k < |m| ==> m[k] != '-'
    requires b == [] || b[0] != '-'
    requires libs.yaml(m).Success?
    ensures var v := libs.yaml(m).value;
      var metadata := MergeDefaultsWithPageMetadata(defaults, if Truthy(v) then v else EmptyObject);
      var body := Dispatch(libs, bars, extension, Trim(b), metadata);
      CompileDocument(libs, bars, "---" + m + "---" + b, defaults, extension)
        == if body.Failure? then Failure(body.error) else Success(Page(metadata, body.value))
  {
    var document := "---" + m + "---" + b;
    var v := libs.yaml(m).value;
    var parsed := Frontmatter.Document(if Truthy(v) then v else EmptyObject, Trim(b));
    assert Frontmatter.Parse(libs.yaml, document) == Success(parsed) by {
      Frontmatter.ParseRoundTrip(libs.yaml, m, b);
    }
    CompileOfParsed(libs, bars, document, defaults, extension, parsed);
  }

  /** Once the front matter is parsed, compile is the merge and the dispatch. */
  lemma CompileOfParsed(libs: Libraries, bars: Bars, document: string, defaults: Value, extension: string, parsed: Frontmatter.Document)
    requires Frontmatter.Parse(libs.yaml, document) == Success(parsed)
    ensures var metadata := MergeDefaultsWithPageMetadata(defaults, parsed.metadata);
      var body := Dispatch(libs, bars, extension, parsed.body, metadata);
      CompileDocument(libs, bars, document, defaults, extension)
        == if body.Failure? then Failure(body.error) else Success(Page(metadata, body.value))
  {
  }

  /** A layout named in the defaults is the one every page uses. */
  lemma DefaultLayoutWins(libs: Libraries, bars: Bars, document: string, defaults: Value, extension: string)
    requires "layout" in Own(defaults)
    requires CompileDocument(libs, bars, document, defaults, extension).Success?
    ensures LayoutName(CompileDocument(libs, bars, document, defaults, extension).value.metadata)
      == PropertyKey(Some(Own(defaults)["layout"]))
  {
  }

  /** What `this.layouts[name](context)` yields when name is only inherited:
      toString and toLocaleString give "[object Object]"; the other methods
      return a boolean, an object or undefined, or throw, and none of these is
      page text. */
  function InheritedLayout(name: string): (r: Result<string, Error>)
    ensures r.Success? <==> name == "toString" || name == "toLocaleString"
    ensures r.Success? ==> r.value == "[object Object]"
    ensures r.Failure? ==> r.error == LayoutNotTemplate(name)
  {
    if name == "toString" || name == "toLocaleString" then Success("[object Object]")
    else Failure(LayoutNotTemplate(name))
  }

  /** compileLayout: the page's layout, expanded with {content, metadata, site};
      "Layout not found" when the page names neither a registered layout nor an
      inherited method. */
  function RenderLayout(libs: Libraries, bars: Bars, layouts: map<string, string>, metadata: Value, site: Value, body: string): (r: Result<string, Error>)
    ensures r == Failure(LayoutNotFound) <==> LayoutName(metadata) !in layouts && LayoutName(metadata) !in InheritedMethods
    ensures LayoutName(metadata) in layouts ==>
      (r.Success? <==> libs.expand(bars, layouts[LayoutName(metadata)], LayoutContext(body, metadata, site)).Success?)
    ensures LayoutName(metadata) in layouts && r.Success? ==>
      r.value == libs.expand(bars, layouts[LayoutName(metadata)], LayoutContext(body, metadata, site)).value
    ensures LayoutName(metadata) in layouts && r.Failure? ==>
      r.error == TemplateFailed(libs.expand(bars, layouts[LayoutName(metadata)], LayoutContext(body, metadata, site)).error)
    ensures LayoutName(metadata) !in layouts && LayoutName(metadata) in InheritedMethods ==>
      r == InheritedLayout(LayoutName(metadata))
  {
    var name := LayoutName(metadata);
    match CheckLayoutExists(layouts, name)
    case Fail(e) => Failure(e)
    case Pass =>
      if name in layouts then Expand(libs, bars, layouts[name], LayoutContext(body, metadata, site))
      else InheritedLayout(name)
  }

  /** A page whose layout was registered is rendered with that layout's body,
      whatever else the registry holds, inherited names included. */
  lemma RenderRegisteredLayout(libs: Libraries, bars: Bars, layouts: map<string, string>, name: string, template: string, site: Value, body: string, metadata: Value)
    requires Get(metadata, "layout") == Some(Str(name))
    ensures RenderLayout(libs, bars, layouts[name := template], metadata, site, body)
      == Expand(libs, bars, template, LayoutContext(body, metadata, site))
  {
  }

  /** A page asking for `toString` with no such layout registered gets the text
      "[object Object]" rather than "Layout not found". */
  lemma InheritedToString(libs: Libraries, bars: Bars, layouts: map<string, string>, site: Value, body: string, metadata: Value)
    requires Get(metadata, "layout") == Some(Str("toString")) && "toString" !in layouts
    ensures RenderLayout(libs, bars, layouts, metadata, site, body) == Success("[object Object]")
  {
  }

  /** The compiler object: its Handlebars environment and its layouts, each
      stored as the template source it was compiled from. */
  class Compiler {
    const libs: Libraries
    var bars: Bars
    var layouts: map<string, string>

    constructor(libs: Libraries)
      ensures this.libs == libs && bars == EmptyBars && layouts == map[]
    {
      this.libs := libs;
      bars := EmptyBars;
      layouts := map[];
    }

    /** addPartial: registers (or replaces) a partial; nothing else changes. */
    method AddPartial(name: string, partial: string)
      modifies this`bars
      ensures bars.partials == old(bars.partials)[name := Source(partial)]
      ensures bars.helpers == old(bars.helpers)
    {
      bars := bars.(partials := bars.partials[name := Source(partial)]);
    }

    /** addHelper: registers (or replaces) a helper; nothing else changes. */
    method AddHelper(name: string, fn: Helper)
      modifies this`bars
      ensures bars.helpers == old(bars.helpers)[name := fn]
      ensures bars.partials == old(bars.partials)
    {
      bars := bars.(helpers := bars.helpers[name := fn]);
    }

    /** addLayout: the last registration under a name wins, other names keep
      their layouts, and the name passes checkLayoutExists afterwards. */
    method AddLayout(name: string, body: string)
      modifies this`layouts
      ensures layouts == old(layouts)[name := body]
      ensures layouts.Keys == old(layouts).Keys + {name}
      ensures layouts[name] == body
      ensures forall n :: n in old(layouts) && n != name ==> layouts[n] == old(layouts)[n]
      ensures CheckLayoutExists(layouts, name) == Pass
    {
      layouts := layouts[name := body];
    }

    /** compile, with the environment as it is now: parse errors propagate, a
        success carries the defaults merged over the page's metadata, and only
        a template error can fail a parsed page. */
    method Compile(document: string, defaults: Value, item: FSItem) returns (r: Result<Page, Error>)
      ensures Frontmatter.Parse(libs.yaml, document).Failure? ==> r == Failure(Frontmatter.Parse(libs.yaml, document).error)
      ensures r.Success? ==> Frontmatter.Parse(libs.yaml, document).Success?
      ensures r.Success? ==>
        r.value.metadata == MergeDefaultsWithPageMetadata(defaults, Frontmatter.Parse(libs.yaml, document).value.metadata)
      ensures r.Failure? && Frontmatter.Parse(libs.yaml, document).Success? ==> item.extension != ".html" && r.error.TemplateFailed?
      ensures r == CompileDocument(libs, bars, document, defaults, item.extension)
    {
      r := CompileDocument(libs, bars, document, defaults, item.extension);
    }

    /** compileLayout, with the registry as it is now; the site is passed to the
        template as its plain object. */
    method CompileLayout(metadata: Value, site: Site, body: string) returns (r: Result<string, Error>)
      ensures r == RenderLayout(libs, bars, layouts, metadata, SiteValue(site), body)
      ensures r == Failure(LayoutNotFound) <==> LayoutName(metadata) !in layouts && LayoutName(metadata) !in InheritedMethods
      ensures LayoutName(metadata) in layouts && r.Success? ==>
        r.value == libs.expand(bars, layouts[LayoutName(metadata)], LayoutContext(body, metadata, SiteValue(site))).value
    {
      r := RenderLayout(libs, bars, layouts, metadata, SiteValue(site), body);
    }
  }
}
