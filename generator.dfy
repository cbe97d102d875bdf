/** The older build script of src/generator.ts: it collects engine options from
    the reserved top-level directories, describes the content tree as a
    directory structure, and renders every content file into ./site with that
    structure in its context. */
module Generator {
  import opened Wrappers
  import opened JsValues
  import opened Errors
  import opened Foreign
  import opened Definitions
  import opened FileSystem
  import opened Text
  import SiteEngine
  import TE = TemplateEngine

  const SiteDir: string := "./site"
  const StaticDir: string := "./site/static"

  /** The navigation tree: a folder's name, its (always empty) path, the output
      paths of its pages and its subfolders. */
  datatype DirectoryStructure = DirectoryStructure(
    name: string,
    path: string,
    files: seq<string>,
    subdirectories: seq<DirectoryStructure>)

  /** newDirStructure: a folder with no pages and no subfolders. */
  function NewDirStructure(name: string, path: string): (r: DirectoryStructure)
    ensures r.name == name && r.path == path && r.files == [] && r.subdirectories == []
  {
    DirectoryStructure(name, path, [], [])
  }

  /** `${dir}/${name}.html`. */
  function PagePath(dir: string, name: string): string {
    SiteEngine.PagePath(dir, name)
  }

  /* ---------------- generateContentDirStructure ---------------- */

  /** generateContentDirStructure(item, rel): a node named after the directory,
      with path "", whose children are visited in order. */
  function Structure(item: FSItem, rel: string): DirectoryStructure
    decreases ItemSize(item), 0
  {
    DirectoryStructure(item.name, "", FileEntries(item.contents, rel), SubStructures(item.contents, rel))
  }

  /** The `files` the forEach pushes: one entry per file child. */
  function FileEntries(items: seq<FSItem>, rel: string): seq<string> {
    if items == [] then []
    else (if items[0].kind == Directory then [] else [PagePath(rel, items[0].name)]) + FileEntries(items[1..], rel)
  }

  /** The `subdirectories` the forEach pushes: one structure per directory child. */
  function SubStructures(items: seq<FSItem>, rel: string): seq<DirectoryStructure>
    decreases ItemsSize(items), 1
  {
    if items == [] then []
    else
      (if items[0].kind == Directory then [Structure(items[0], rel + "/" + items[0].name)] else [])
      + SubStructures(items[1..], rel)
  }

  /** The files entries are the file children's output paths, in order. */
  lemma {:induction false} FileEntriesInOrder(items: seq<FSItem>, rel: string)
    ensures var fs := FileChildren(items);
      |FileEntries(items, rel)| == |fs| &&
      forall i :: 0 <= i < |fs| ==> FileEntries(items, rel)[i] == PagePath(rel, fs[i].name)
  {
    if items != [] {
      FileEntriesInOrder(items[1..], rel);
    }
  }

  /** The subdirectories are the directory children's structures, in order,
      each one level deeper. */
  lemma {:induction false} SubStructuresInOrder(items: seq<FSItem>, rel: string)
    ensures var ds := DirChildren(items);
      |SubStructures(items, rel)| == |ds| &&
      forall i :: 0 <= i < |ds| ==> SubStructures(items, rel)[i] == Structure(ds[i], rel + "/" + ds[i].name)
  {
    if items != [] {
      SubStructuresInOrder(items[1..], rel);
    }
  }

  /** Every node of the structure is named after its directory, has path "",
      and lists its children in the order the walk gave them. */
  lemma StructureShape(item: FSItem, rel: string)
    ensures var s := Structure(item, rel);
      var fs := FileChildren(item.contents);
      var ds := DirChildren(item.contents);
      s.name == item.name && s.path == "" &&
      |s.files| == |fs| && (forall i :: 0 <= i < |fs| ==> s.files[i] == PagePath(rel, fs[i].name)) &&
      |s.subdirectories| == |ds| &&
      (forall i :: 0 <= i < |ds| ==> s.subdirectories[i] == Structure(ds[i], rel + "/" + ds[i].name))
  {
    FileEntriesInOrder(item.contents, rel);
    SubStructuresInOrder(item.contents, rel);
  }

  /** All page entries of a structure: its own files, then those of each subfolder. */
  function Entries(s: DirectoryStructure): seq<string>
    decreases s, 1
  {
    s.files + SubEntries(s.subdirectories)
  }

  function SubEntries(ss: seq<DirectoryStructure>): seq<string>
    decreases ss, 0
  {
    if ss == [] then [] else Entries(ss[0]) + SubEntries(ss[1..])
  }

  /** The output path of every file leaf of the walked tree, in walk order. */
  function Targets(items: seq<FSItem>, dir: string): seq<string>
    decreases ItemsSize(items)
  {
    if items == [] then []
    else
      (if items[0].kind == Directory then Targets(items[0].contents, dir + "/" + items[0].name)
       else [PagePath(dir, items[0].name)])
      + Targets(items[1..], dir)
  }

  /** The number of file leaves of the walked tree. */
  function FileCount(items: seq<FSItem>): nat
    decreases ItemsSize(items)
  {
    if items == [] then 0
    else (if items[0].kind == Directory then FileCount(items[0].contents) else 1) + FileCount(items[1..])
  }

  lemma {:induction false} TargetsCount(items: seq<FSItem>, dir: string)
    ensures |Targets(items, dir)| == FileCount(items)
    decreases ItemsSize(items)
  {
    if items != [] {
      if items[0].kind == Directory {
        TargetsCount(items[0].contents, dir + "/" + items[0].name);
      }
      TargetsCount(items[1..], dir);
    }
  }

  /** The structure lists exactly the file leaves' output paths (each as often
      as it occurs), only grouped folder by folder instead of in walk order. */
  lemma {:induction false} StructureEntries(item: FSItem, rel: string)
    ensures multiset(Entries(Structure(item, rel))) == multiset(Targets(item.contents, rel))
    decreases ItemSize(item), 0
  {
    ItemsEntries(item.contents, rel);
  }

  lemma {:induction false} ItemsEntries(items: seq<FSItem>, rel: string)
    ensures multiset(FileEntries(items, rel) + SubEntries(SubStructures(items, rel))) == multiset(Targets(items, rel))
    decreases ItemsSize(items), 1
  {
    if items != [] {
      var head := items[0];
      var fs, ss := FileEntries(items[1..], rel), SubStructures(items[1..], rel);
      ItemsEntries(items[1..], rel);
      if head.kind == Directory {
        var deeper := rel + "/" + head.name;
        var sub := Structure(head, deeper);
        var e, rest := Entries(sub), SubEntries(ss);
        assert FileEntries(items, rel) + SubEntries(SubStructures(items, rel)) == fs + (e + rest) by {
          assert FileEntries(items, rel) == fs;
          assert SubStructures(items, rel) == [sub] + ss;
          assert ([sub] + ss)[1..] == ss;
        }
        assert Targets(items, rel) == Targets(head.contents, deeper) + Targets(items[1..], rel);
        assert multiset(e) == multiset(Targets(head.contents, deeper)) by {
          StructureEntries(head, deeper);
        }
        assert multiset(fs + (e + rest)) == multiset(e) + multiset(fs + rest);
      } else {
        var page := PagePath(rel, head.name);
        assert FileEntries(items, rel) == [page] + fs;
        assert SubStructures(items, rel) == ss;
        AppendAssoc([page], fs, SubEntries(ss));
      }
    }
  }

  /** The structure of the content directory holds one entry per file leaf. */
  lemma EntryCount(item: FSItem, rel: string)
    ensures |Entries(Structure(item, rel))| == FileCount(item.contents)
  {
    StructureEntries(item, rel);
    TargetsCount(item.contents, rel);
    assert |multiset(Entries(Structure(item, rel)))| == |Entries(Structure(item, rel))|;
    assert |multiset(Targets(item.contents, rel))| == |Targets(item.contents, rel)|;
  }

  /** An output path under dir: dir, a slash, some name, then ".html". */
  predicate Under(e: string, dir: string) {
    |e| >= |dir| + 6 && e[..|dir| + 1] == dir + "/" && e[|e| - 5..] == ".html"
  }

  lemma PagePathUnder(dir: string, name: string)
    ensures Under(PagePath(dir, name), dir)
  {
    var e := PagePath(dir, name);
    assert e == (dir + "/") + (name + ".html");
  }

  /** Anything under dir + "/" + name is under dir. */
  lemma UnderDeeper(e: string, dir: string, name: string)
    requires Under(e, dir + "/" + name)
    ensures Under(e, dir)
  {
    var deeper := dir + "/" + name;
    assert e[..|dir| + 1] == e[..|deeper| + 1][..|dir| + 1];
    assert deeper[..|dir| + 1] == dir + "/";
  }

  /** Every entry of the structure starts with rel + "/" and ends with ".html";
      from the root, where rel is "", every entry starts with "/". */
  lemma {:induction false} EntriesUnder(item: FSItem, rel: string)
    ensures forall e :: e in Entries(Structure(item, rel)) ==> Under(e, rel)
    decreases ItemSize(item), 0
  {
    ItemsUnder(item.contents, rel);
  }

  lemma {:induction false} ItemsUnder(items: seq<FSItem>, rel: string)
    ensures forall e :: e in FileEntries(items, rel) + SubEntries(SubStructures(items, rel)) ==> Under(e, rel)
    decreases ItemsSize(items), 1
  {
    if items != [] {
      var head := items[0];
      var fs, ss := FileEntries(items[1..], rel), SubStructures(items[1..], rel);
      ItemsUnder(items[1..], rel);
      if head.kind == Directory {
        var deeper := rel + "/" + head.name;
        var sub := Structure(head, deeper);
        EntriesUnder(head, deeper);
        forall e | e in Entries(sub)
          ensures Under(e, rel)
        {
          UnderDeeper(e, rel, head.name);
        }
        assert FileEntries(items, rel) == fs;
        assert SubStructures(items, rel) == [sub] + ss;
        assert ([sub] + ss)[1..] == ss;
        assert SubEntries([sub] + ss) == Entries(sub) + SubEntries(ss);
      } else {
        PagePathUnder(rel, head.name);
        assert FileEntries(items, rel) == [PagePath(rel, head.name)] + fs;
        assert SubStructures(items, rel) == ss;
      }
    }
  }

  /** The structure as the plain object templates receive as `siteStructure`. */
  function StructureValue(s: DirectoryStructure): Value
    decreases s
  {
    Obj(map[
      "name" := Str(s.name),
      "path" := Str(s.path),
      "files" := List(seq(|s.files|, i requires 0 <= i < |s.files| => Str(s.files[i]))),
      "subdirectories" := List(seq(|s.subdirectories|, i requires 0 <= i < |s.subdirectories| =>
        StructureValue(s.subdirectories[i])))])
  }

  /* ---------------- consumeContents ---------------- */

  /** engine.render(file, context), with what the engine was built from. */
  type Render = (Bars, map<string, string>, string, Value) -> string

  /** What every page is rendered with: the renderer, the engine's partials and
      layouts, and the directory structure computed before any page is written. */
  datatype Pages = Pages(render: Render, bars: Bars, layouts: map<string, string>, tree: Value)

  /** The context of one page; the date is not part of the model. */
  function PageContext(path: string, tree: Value): (r: Value)
    ensures r.Obj? && r.fields.Keys == {"path", "siteStructure"}
    ensures r.fields["path"] == Str(path) && r.fields["siteStructure"] == tree
  {
    Obj(map["path" := Str(path), "siteStructure" := tree])
  }

  datatype Done = Done(result: Outcome<Error>, disk: Disk)

  /** consumeContents from a given child on: a directory child gets its folder
      and is consumed under it; a file child is read, rendered and written to
      `${dir}/${name}.html`. An unreadable file ends it with its error. */
  function ConsumeItems(env: Pages, items: seq<FSItem>, dir: string, d: Disk): Done
    decreases ItemsSize(items)
  {
    if items == [] then Done(Pass, d)
    else
      var item := items[0];
      if item.kind == Directory then
        var sub := dir + "/" + item.name;
        var r := ConsumeItems(env, item.contents, sub, Perform(d, Mkdir(sub)));
        if r.result.Fail? then r else ConsumeItems(env, items[1..], dir, r.disk)
      else
        match ReadFile(d, item.path)
        case Failure(e) => Done(Fail(e), d)
        case Success(file) =>
          var path := PagePath(dir, item.name);
          ConsumeItems(env, items[1..], dir, WriteFile(d, path, env.render(env.bars, env.layouts, file, PageContext(path, env.tree))))
  }

  /** consumeContents creates folders and writes pages, and removes nothing; on
      success it has written exactly one page per file leaf, in walk order; it
      fails only on a file it cannot read. */
  lemma {:induction false} ConsumeWrites(env: Pages, items: seq<FSItem>, dir: string, d: Disk)
    ensures var r := ConsumeItems(env, items, dir, d);
      Keeps(d.log, r.disk.log) &&
      (r.result.Pass? ==> Written(r.disk.log) == Written(d.log) + Targets(items, dir)) &&
      (r.result.Fail? ==> r.result.error.ReadFailed?)
    decreases ItemsSize(items)
  {
    var r := ConsumeItems(env, items, dir, d);
    if items == [] {
      KeepsRefl(d.log);
    } else {
      var item := items[0];
      if item.kind == Directory {
        var sub := dir + "/" + item.name;
        var d1 := Perform(d, Mkdir(sub));
        var inner := ConsumeItems(env, item.contents, sub, d1);
        assert Keeps(d.log, d1.log) by {
          assert d1.log[..|d.log|] == d.log;
        }
        SiteEngine.PerformOne(d, Mkdir(sub));
        ConsumeWrites(env, item.contents, sub, d1);
        KeepsTrans(d.log, d1.log, inner.disk.log);
        if inner.result.Pass? {
          ConsumeWrites(env, items[1..], dir, inner.disk);
          KeepsTrans(d.log, inner.disk.log, r.disk.log);
          if r.result.Pass? {
            var a, b, c := Written(d.log), Targets(item.contents, sub), Targets(items[1..], dir);
            assert Targets(items, dir) == b + c;
            AppendAssoc(a, b, c);
          }
        }
      } else {
        match ReadFile(d, item.path)
        case Failure(e) =>
          KeepsRefl(d.log);
        case Success(file) =>
          var path := PagePath(dir, item.name);
          var d1 := WriteFile(d, path, env.render(env.bars, env.layouts, file, PageContext(path, env.tree)));
          SiteEngine.WriteOne(d, path, d1.files[path]);
          BuildsKeeps(d.log, d1.log);
          ConsumeWrites(env, items[1..], dir, d1);
          KeepsTrans(d.log, d1.log, r.disk.log);
          if r.result.Pass? {
            assert Targets(items, dir) == [path] + Targets(items[1..], dir);
            SiteEngine.SnocCons(Written(d.log), path, Targets(items[1..], dir));
          }
      }
    }
  }

  /* ---------------- generate ---------------- */

  /** What the generator holds: its engine options, its directory structure and the disk. */
  datatype GenState = GenState(opts: TE.EngineOptions, outDir: DirectoryStructure, disk: Disk)

  datatype Step = Step(result: Outcome<Error>, state: GenState)

  /** The loop of generate so far: its outcome, the state, and the content item found. */
  datatype Scan = Scan(result: Outcome<Error>, state: GenState, content: Option<FSItem>)

  function LayoutOptions(entries: seq<(string, string)>): (r: seq<TE.LayoutOption>)
    ensures |r| == |entries| && forall i :: 0 <= i < |entries| ==> r[i] == TE.LayoutOption(entries[i].0, entries[i].1)
  {
    seq(|entries|, i requires 0 <= i < |entries| => TE.LayoutOption(entries[i].0, entries[i].1))
  }

  function PartialOptions(entries: seq<(string, string)>): (r: seq<TE.PartialOption>)
    ensures |r| == |entries| && forall i :: 0 <= i < |entries| ==> r[i] == TE.PartialOption(entries[i].0, entries[i].1)
  {
    seq(|entries|, i requires 0 <= i < |entries| => TE.PartialOption(entries[i].0, entries[i].1))
  }

  /** `require(helper.path)(Handlebars, {dir})`: the model keeps the module path. */
  function HelperOptions(children: seq<FSItem>): (r: seq<TE.HelperOption>)
    ensures |r| == |children| && forall i :: 0 <= i < |children| ==> r[i] == TE.HelperOption(children[i].name, Helper(children[i].path))
  {
    seq(|children|, i requires 0 <= i < |children| => TE.HelperOption(children[i].name, Helper(children[i].path)))
  }

  /** addLayout: one layout option per child, read up to the first unreadable one. */
  function AddLayoutSpec(item: FSItem, st: GenState): Step {
    var got := SiteEngine.ReadChildren(item.contents, st.disk);
    Step(got.outcome, st.(opts := st.opts.(layouts := st.opts.layouts + LayoutOptions(got.entries))))
  }

  /** addPartial: one partial option per child, read up to the first unreadable one. */
  function AddPartialSpec(item: FSItem, st: GenState): Step {
    var got := SiteEngine.ReadChildren(item.contents, st.disk);
    Step(got.outcome, st.(opts := st.opts.(partials := st.opts.partials + PartialOptions(got.entries))))
  }

  /** addHelper: one helper option per child. */
  function AddHelperSpec(item: FSItem, st: GenState): GenState {
    st.(opts := st.opts.(helpers := st.opts.helpers + HelperOptions(item.contents)))
  }

  /** addLayout succeeds exactly when every child can be read; it appends one
      option per child read, in order, named after the child and holding its
      text, and leaves the earlier options in place. */
  lemma AddLayoutAppends(item: FSItem, st: GenState)
    ensures var r := AddLayoutSpec(item, st);
      var old_ := st.opts.layouts;
      var n := |r.state.opts.layouts| - |old_|;
      0 <= n <= |item.contents| &&
      r.state.opts.layouts[..|old_|] == old_ &&
      (r.result.Pass? <==> forall k :: 0 <= k < |item.contents| ==> item.contents[k].path in st.disk.files) &&
      (r.result.Pass? ==> n == |item.contents|) &&
      (forall i :: 0 <= i < n ==>
        item.contents[i].path in st.disk.files &&
        r.state.opts.layouts[|old_| + i] == TE.LayoutOption(item.contents[i].name, st.disk.files[item.contents[i].path]))
  {
    var got := SiteEngine.ReadChildren(item.contents, st.disk);
    SiteEngine.ReadChildrenStops(item.contents, st.disk);
    var all := st.opts.layouts + LayoutOptions(got.entries);
    assert all[..|st.opts.layouts|] == st.opts.layouts;
    if got.outcome.Fail? {
      assert item.contents[|got.entries|].path !in st.disk.files;
    }
  }

  /** One turn of generate's switch; only directories reach it. */
  function Dispatch(item: FSItem, st: GenState, content: Option<FSItem>): Scan {
    if item.name == "layouts" then
      var r := AddLayoutSpec(item, st);
      Scan(r.result, r.state, content)
    else if item.name == "partials" then
      var r := AddPartialSpec(item, st);
      Scan(r.result, r.state, content)
    else if item.name == "helpers" then Scan(Pass, AddHelperSpec(item, st), content)
    else if item.name == "content" then Scan(Pass, st, Some(item))
    else if item.name == "static" then Scan(Pass, st.(disk := Perform(st.disk, CopyDir(item.path, StaticDir))), content)
    else Scan(Pass, st, content)
  }

  /** generate's loop from a given top-level item on: the `break` inside the
      if leaves the loop, so the first item that is not a directory ends it. */
  function ScanItems(items: seq<FSItem>, st: GenState, content: Option<FSItem>): Scan
    decreases |items|
  {
    if items == [] || items[0].kind != Directory then Scan(Pass, st, content)
    else
      var s := Dispatch(items[0], st, content);
      if s.result.Fail? then s else ScanItems(items[1..], s.state, s.content)
  }

  /** Items after the first file are never dispatched. */
  lemma {:induction false} ScanStopsAtFile(items: seq<FSItem>, k: nat, st: GenState, content: Option<FSItem>)
    requires k < |items| && items[k].kind != Directory
    ensures ScanItems(items, st, content) == ScanItems(items[..k], st, content)
  {
    if k > 0 && items[0].kind == Directory {
      var s := Dispatch(items[0], st, content);
      assert items[..k][0] == items[0] && items[..k][1..] == items[1..][..k - 1];
      if s.result.Pass? {
        ScanStopsAtFile(items[1..], k - 1, s.state, s.content);
      }
    }
  }

  /** Without a "content" directory the content item stays what it was. */
  lemma {:induction false} ScanKeepsContent(items: seq<FSItem>, st: GenState, content: Option<FSItem>)
    requires forall k :: 0 <= k < |items| ==> items[k].name != "content"
    ensures ScanItems(items, st, content).content == content
    decreases |items|
  {
    if items != [] && items[0].kind == Directory {
      var s := Dispatch(items[0], st, content);
      if s.result.Pass? {
        ScanKeepsContent(items[1..], s.state, s.content);
      }
    }
  }

  /** The engine the options build: its partials and its layout table. */
  function EnginePages(render: Render, opts: TE.EngineOptions, tree: DirectoryStructure): Pages {
    Pages(render, Bars(TE.ConstructedPartials(opts), map[]), TE.ConstructedLayouts(opts), StructureValue(tree))
  }

  /** generate: create ./site, run the loop, build the engine, compute the
      structure of the content directory, then consume it into ./site. */
  function GenerateSpec(items: seq<FSItem>, render: Render, st: GenState): Step {
    var scan := ScanItems(items, st.(disk := Perform(st.disk, Mkdir(SiteDir))), None);
    if scan.result.Fail? then Step(scan.result, scan.state)
    else if scan.content.None? then Step(Fail(ContentsUndefined), scan.state)
    else
      var s := scan.state;
      var content := scan.content.value;
      var tree := Structure(content, "");
      var run := ConsumeItems(EnginePages(render, s.opts, tree), content.contents, SiteDir, s.disk);
      Step(run.result, s.(outDir := tree, disk := run.disk))
  }

  /** Without a "content" directory among the scanned items, generate fails
      reading `contents` of the placeholder item, before any page is written. */
  lemma GenerateNeedsContent(items: seq<FSItem>, render: Render, st: GenState)
    requires forall k :: 0 <= k < |items| ==> items[k].name != "content"
    ensures var r := GenerateSpec(items, render, st);
      var scan := ScanItems(items, st.(disk := Perform(st.disk, Mkdir(SiteDir))), None);
      r.result.Fail? && (scan.result.Pass? ==> r.result.error == ContentsUndefined) &&
      r.state.disk == scan.state.disk
  {
    ScanKeepsContent(items, st.(disk := Perform(st.disk, Mkdir(SiteDir))), None);
  }

  /** On success, the structure the generator keeps is the content directory's,
      and the pages written after the scan are exactly that structure's
      entries under ./site, one per file leaf. */
  lemma GenerateWrites(items: seq<FSItem>, render: Render, st: GenState)
    ensures var r := GenerateSpec(items, render, st);
      var scan := ScanItems(items, st.(disk := Perform(st.disk, Mkdir(SiteDir))), None);
      r.result.Pass? ==>
        scan.result.Pass? && scan.content.Some? &&
        r.state.outDir == Structure(scan.content.value, "") &&
        Written(r.state.disk.log) == Written(scan.state.disk.log) + Targets(scan.content.value.contents, SiteDir) &&
        multiset(Entries(r.state.outDir)) == multiset(Targets(scan.content.value.contents, ""))
  {
    var scan := ScanItems(items, st.(disk := Perform(st.disk, Mkdir(SiteDir))), None);
    if scan.result.Pass? && scan.content.Some? {
      var content := scan.content.value;
      var tree := Structure(content, "");
      ConsumeWrites(EnginePages(render, scan.state.opts, tree), content.contents, SiteDir, scan.state.disk);
      StructureEntries(content, "");
    }
  }

  /** The generator object. */
  class Generator {
    /** walk("./example"): the top-level items, in the order the walk gave them. */
    const dir: seq<FSItem>
    const render: Render
    var opts: TE.EngineOptions
    var outDir: DirectoryStructure
    var disk: Disk

    constructor(dir: seq<FSItem>, render: Render, files: map<string, string>)
      ensures this.dir == dir && this.render == render
      ensures opts == TE.NoOptions && outDir == NewDirStructure("", "") && disk == Disk(files, [])
    {
      this.dir := dir;
      this.render := render;
      opts := TE.NoOptions;
      outDir := NewDirStructure("", "");
      disk := Disk(files, []);
    }

    function State(): GenState
      reads this
    {
      GenState(opts, outDir, disk)
    }

    /** addLayout: push one layout option per child, in order. */
    method AddLayout(item: FSItem) returns (r: Outcome<Error>)
      modifies this`opts
      ensures Step(r, State()) == AddLayoutSpec(item, old(State()))
    {
      ghost var total := SiteEngine.ReadChildren(item.contents, disk);
      ghost var done: seq<(string, string)> := [];
      var i := 0;
      while i < |item.contents|
        invariant i <= |item.contents|
        invariant opts == old(opts).(layouts := old(opts.layouts) + LayoutOptions(done))
        invariant var rest := SiteEngine.ReadChildren(item.contents[i..], disk);
          total == SiteEngine.Reads(rest.outcome, done + rest.entries)
      {
        var child := item.contents[i];
        SiteEngine.ReadChildrenAt(item.contents, i, disk);
        match ReadFile(disk, child.path)
        case Failure(e) =>
          assert done + [] == done;
          return Fail(e);
        case Success(text) =>
          SiteEngine.SnocCons(done, (child.name, text), SiteEngine.ReadChildren(item.contents[i + 1..], disk).entries);
          assert LayoutOptions(done + [(child.name, text)]) == LayoutOptions(done) + [TE.LayoutOption(child.name, text)];
          AppendAssoc(old(opts.layouts), LayoutOptions(done), [TE.LayoutOption(child.name, text)]);
          opts := opts.(layouts := opts.layouts + [TE.LayoutOption(child.name, text)]);
          done := done + [(child.name, text)];
        i := i + 1;
      }
      assert item.contents[i..] == [] && done + [] == done;
      return Pass;
    }

    /** addPartial: push one partial option per child, in order. */
    method AddPartial(item: FSItem) returns (r: Outcome<Error>)
      modifies this`opts
      ensures Step(r, State()) == AddPartialSpec(item, old(State()))
    {
      ghost var total := SiteEngine.ReadChildren(item.contents, disk);
      ghost var done: seq<(string, string)> := [];
      var i := 0;
      while i < |item.contents|
        invariant i <= |item.contents|
        invariant opts == old(opts).(partials := old(opts.partials) + PartialOptions(done))
        invariant var rest := SiteEngine.ReadChildren(item.contents[i..], disk);
          total == SiteEngine.Reads(rest.outcome, done + rest.entries)
      {
        var child := item.contents[i];
        SiteEngine.ReadChildrenAt(item.contents, i, disk);
        match ReadFile(disk, child.path)
        case Failure(e) =>
          assert done + [] == done;
          return Fail(e);
        case Success(text) =>
          SiteEngine.SnocCons(done, (child.name, text), SiteEngine.ReadChildren(item.contents[i + 1..], disk).entries);
          assert PartialOptions(done + [(child.name, text)]) == PartialOptions(done) + [TE.PartialOption(child.name, text)];
          AppendAssoc(old(opts.partials), PartialOptions(done), [TE.PartialOption(child.name, text)]);
          opts := opts.(partials := opts.partials + [TE.PartialOption(child.name, text)]);
          done := done + [(child.name, text)];
        i := i + 1;
      }
      assert item.contents[i..] == [] && done + [] == done;
      return Pass;
    }

    /** addHelper: push one helper option per child, in order. */
    method AddHelper(item: FSItem)
      modifies this`opts
      ensures State() == AddHelperSpec(item, old(State()))
    {
      ghost var all := HelperOptions(item.contents);
      for i := 0 to |item.contents|
        invariant opts == old(opts).(helpers := old(opts.helpers) + all[..i])
      {
        assert all[..i + 1] == all[..i] + [all[i]];
        AppendAssoc(old(opts.helpers), all[..i], [all[i]]);
        opts := opts.(helpers := opts.helpers + [TE.HelperOption(item.contents[i].name, Helper(item.contents[i].path))]);
      }
      assert all[..|item.contents|] == all;
    }

    /** addStatic: copy the directory to ./site/static. */
    method AddStatic(item: FSItem)
      modifies this`disk
      ensures disk == Perform(old(disk), CopyDir(item.path, StaticDir))
    {
      disk := Perform(disk, CopyDir(item.path, StaticDir));
    }

    /** consumeContents(content, engine, dir): every child in order; folders are
        made with mkdir and consumed under `${dir}/${name}`, files are rendered
        with the structure kept in outDir and written to `${dir}/${name}.html`. */
    method ConsumeContents(content: FSItem, engine: TE.Engine, dir: string) returns (r: Outcome<Error>)
      modifies this`disk
      ensures Done(r, disk) == ConsumeItems(Pages(render, engine.bars, engine.layouts, StructureValue(outDir)), content.contents, dir, old(disk))
      decreases ItemSize(content)
    {
      ghost var env := Pages(render, engine.bars, engine.layouts, StructureValue(outDir));
      var i := 0;
      while i < |content.contents|
        invariant i <= |content.contents|
        invariant ItemsSize(content.contents[i..]) <= ItemsSize(content.contents)
        invariant ConsumeItems(env, content.contents, dir, old(disk)) == ConsumeItems(env, content.contents[i..], dir, disk)
      {
        var item := content.contents[i];
        ghost var rest := content.contents[i..];
        assert rest[0] == item && rest[1..] == content.contents[i + 1..];
        if item.kind == Directory {
          var sub := dir + "/" + item.name;
          disk := Perform(disk, Mkdir(sub));
          var inner := ConsumeContents(item, engine, sub);
          if inner.Fail? {
            return inner;
          }
        } else {
          match ReadFile(disk, item.path)
          case Failure(e) =>
            return Fail(e);
          case Success(file) =>
            var path := PagePath(dir, item.name);
            var html := render(engine.bars, engine.layouts, file, PageContext(path, StructureValue(outDir)));
            disk := WriteFile(disk, path, html);
        }
        i := i + 1;
      }
      return Pass;
    }

    /** generate: mkdir ./site; dispatch the top-level directories by name until
        the first item that is not one; build the engine; compute outDir from
        the content directory; then consume it into ./site. */
    method Generate() returns (r: Outcome<Error>)
      modifies this`opts, this`outDir, this`disk
      ensures Step(r, State()) == GenerateSpec(dir, render, old(State()))
    {
      disk := Perform(disk, Mkdir(SiteDir));
      var content: Option<FSItem> := None;
      var i := 0;
      while i < |dir| && dir[i].kind == Directory
        invariant i <= |dir|
        invariant ScanItems(dir, old(State()).(disk := Perform(old(disk), Mkdir(SiteDir))), None)
          == ScanItems(dir[i..], State(), content)
        invariant outDir == old(outDir)
      {
        var item := dir[i];
        assert dir[i..][0] == item && dir[i..][1..] == dir[i + 1..];
        ghost var before := State();
        ghost var found := content;
        var step := Pass;
        if item.name == "layouts" {
          step := AddLayout(item);
        } else if item.name == "partials" {
          step := AddPartial(item);
        } else if item.name == "helpers" {
          AddHelper(item);
        } else if item.name == "content" {
          content := Some(item);
        } else if item.name == "static" {
          AddStatic(item);
        }
        assert Scan(step, State(), content) == Dispatch(item, before, found);
        if step.Fail? {
          return step;
        }
        i := i + 1;
      }
      assert dir[i..] == [] || dir[i..][0].kind != Directory;
      var engine := new TE.Engine(opts);
      if content.None? {
        return Fail(ContentsUndefined);
      }
      outDir := Structure(content.value, "");
      r := ConsumeContents(content.value, engine, SiteDir);
    }
  }
}
