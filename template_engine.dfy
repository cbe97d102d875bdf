/** The template engine of src/engine/engine.ts: a Handlebars environment and a
    layout table filled once, from lists of named partials, helpers and
    layouts, when the engine is constructed. */
module TemplateEngine {
  import opened Foreign
  import opened Registry

  /** One `{name, partial}` option. */
  datatype PartialOption = PartialOption(name: string, partial: string)
  /** One `{name, fn}` option. */
  datatype HelperOption = HelperOption(name: string, fn: Helper)
  /** One `{name, body}` option. */
  datatype LayoutOption = LayoutOption(name: string, body: string)

  /** The options the engine is built from. */
  datatype EngineOptions = EngineOptions(
    partials: seq<PartialOption>,
    helpers: seq<HelperOption>,
    layouts: seq<LayoutOption>)

  const NoOptions: EngineOptions := EngineOptions([], [], [])

  function PartialEntries(ps: seq<PartialOption>): (r: seq<(string, Partial)>)
    ensures |r| == |ps|
    ensures forall i :: 0 <= i < |ps| ==> r[i] == (ps[i].name, Source(ps[i].partial))
  {
    seq(|ps|, i requires 0 <= i < |ps| => (ps[i].name, Source(ps[i].partial)))
  }

  /** Helpers go through registerPartial, so they land among the partials as functions. */
  function HelperEntries(hs: seq<HelperOption>): (r: seq<(string, Partial)>)
    ensures |r| == |hs|
    ensures forall i :: 0 <= i < |hs| ==> r[i] == (hs[i].name, HelperFn(hs[i].fn))
  {
    seq(|hs|, i requires 0 <= i < |hs| => (hs[i].name, HelperFn(hs[i].fn)))
  }

  function LayoutEntries(ls: seq<LayoutOption>): (r: seq<(string, string)>)
    ensures |r| == |ls|
    ensures forall i :: 0 <= i < |ls| ==> r[i] == (ls[i].name, ls[i].body)
  {
    seq(|ls|, i requires 0 <= i < |ls| => (ls[i].name, ls[i].body))
  }

  /** The partial registry after construction: all partials in order, then all helpers. */
  function ConstructedPartials(opts: EngineOptions): map<string, Partial> {
    Register(map[], PartialEntries(opts.partials) + HelperEntries(opts.helpers))
  }

  /** The layout table after construction. */
  function ConstructedLayouts(opts: EngineOptions): map<string, string> {
    Register(map[], LayoutEntries(opts.layouts))
  }

  /** The layout table's names are exactly the names of the layout options. */
  lemma LayoutNames(opts: EngineOptions, name: string)
    ensures name in ConstructedLayouts(opts) <==> exists j :: 0 <= j < |opts.layouts| && opts.layouts[j].name == name
  {
    var es := LayoutEntries(opts.layouts);
    RegisterKeys(map[], es, name);
    if exists j :: 0 <= j < |es| && es[j].0 == name {
      var j :| 0 <= j < |es| && es[j].0 == name;
      assert opts.layouts[j].name == name;
    }
    if exists j :: 0 <= j < |opts.layouts| && opts.layouts[j].name == name {
      var j :| 0 <= j < |opts.layouts| && opts.layouts[j].name == name;
      assert es[j].0 == name;
    }
  }

  /** A layout name given twice gets its last body. */
  lemma LayoutLastWins(opts: EngineOptions, i: nat)
    requires i < |opts.layouts|
    requires forall j :: i < j < |opts.layouts| ==> opts.layouts[j].name != opts.layouts[i].name
    ensures opts.layouts[i].name in ConstructedLayouts(opts) && ConstructedLayouts(opts)[opts.layouts[i].name] == opts.layouts[i].body
  {
    RegisterLastWins(map[], LayoutEntries(opts.layouts), i);
  }

  /** A helper replaces any partial of the same name, whatever the order of the lists. */
  lemma HelperShadowsPartial(opts: EngineOptions, i: nat)
    requires i < |opts.helpers|
    requires forall j :: i < j < |opts.helpers| ==> opts.helpers[j].name != opts.helpers[i].name
    ensures opts.helpers[i].name in ConstructedPartials(opts) && ConstructedPartials(opts)[opts.helpers[i].name] == HelperFn(opts.helpers[i].fn)
  {
    var ps := PartialEntries(opts.partials);
    var es := ps + HelperEntries(opts.helpers);
    RegisterLastWins(map[], es, |ps| + i);
  }

  /** A partial that no helper names keeps the last source given for it. */
  lemma PartialKept(opts: EngineOptions, i: nat)
    requires i < |opts.partials|
    requires forall j :: i < j < |opts.partials| ==> opts.partials[j].name != opts.partials[i].name
    requires forall j :: 0 <= j < |opts.helpers| ==> opts.helpers[j].name != opts.partials[i].name
    ensures opts.partials[i].name in ConstructedPartials(opts) && ConstructedPartials(opts)[opts.partials[i].name] == Source(opts.partials[i].partial)
  {
    var ps := PartialEntries(opts.partials);
    var es := ps + HelperEntries(opts.helpers);
    RegisterLastWins(map[], es, i);
  }

  /** The engine object. Its Markdown renderer is never used by the constructor. */
  class Engine {
    var bars: Bars
    var layouts: map<string, string>

    /** Partials, then helpers (through registerPartial), then layouts, each in list
        order; registerHelper is never called. */
    constructor(opts: EngineOptions)
      ensures bars.partials == ConstructedPartials(opts)
      ensures bars.helpers == map[]
      ensures layouts == ConstructedLayouts(opts)
    {
      var ps := PartialEntries(opts.partials);
      var hs := HelperEntries(opts.helpers);
      var ls := LayoutEntries(opts.layouts);
      var partials: map<string, Partial> := map[];
      for i := 0 to |opts.partials|
        invariant partials == Register(map[], ps[..i])
      {
        RegisterStep(map[], ps, i);
        partials := partials[opts.partials[i].name := Source(opts.partials[i].partial)];
      }
      assert ps[..|ps|] == ps;
      for i := 0 to |opts.helpers|
        invariant partials == Register(Register(map[], ps), hs[..i])
      {
        RegisterStep(Register(map[], ps), hs, i);
        partials := partials[opts.helpers[i].name := HelperFn(opts.helpers[i].fn)];
      }
      assert hs[..|hs|] == hs;
      RegisterAppend(map[], ps, hs);
      var table: map<string, string> := map[];
      for i := 0 to |opts.layouts|
        invariant table == Register(map[], ls[..i])
      {
        RegisterStep(map[], ls, i);
        table := table[opts.layouts[i].name := opts.layouts[i].body];
      }
      assert ls[..|ls|] == ls;
      bars := Bars(partials, map[]);
      layouts := table;
    }
  }
}
