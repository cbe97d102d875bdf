/** The site engine of src/engine.ts: it loads layouts, partials, helpers and
    defaults from the reserved top-level directories, compiles the content tree
    into a staging directory while building the site tree, then lays out every
    staged page into ./site and removes the staging directory. */
module SiteEngine {
  import opened Wrappers
  import opened JsValues
  import opened Errors
  import opened Foreign
  import opened Definitions
  import opened Registry
  import opened FileSystem
  import Helpers
  import Text
  import C = Compiler

  const TempDir: string := "./temp-site"
  const SiteDir: string := "./site"
  const StaticDir: string := "./site/static"

  /** `${dir}/${name}.html`: where a page is staged and where it is written. */
  function PagePath(dir: string, name: string): string {
    dir + "/" + name + ".html"
  }

  /** `${dir}/${item.base}`: the staging directory of a content subfolder. The
      base of a path is its last segment with its extension, which is what
      FSItem calls `filename`. */
  function StageDir(dir: string, item: FSItem): string {
    dir + "/" + item.filename
  }

  /** What compile and compileLayout see of the compiler and the engine. */
  datatype Env = Env(libs: Libraries, bars: Bars, layouts: map<string, string>, defaults: Value)

  /** The outcome of a step that reads and writes files, with the disk it leaves. */
  datatype Run<T> = Run(result: Result<T, Error>, disk: Disk)

  /* ---------------- readContent ---------------- */

  /** readContent(content, dir): a folder named after the content directory,
      staged under dir. */
  function ReadContentSpec(env: Env, content: FSItem, dir: string, d: Disk): Run<Site>
    decreases ItemSize(content), 0
  {
    ReadItems(env, content.contents, dir, Helpers.NewSite(content.name, dir), Perform(d, Mkdirp(dir)))
  }

  /** The loop of readContent from a given child on, with the folder built so far. */
  function ReadItems(env: Env, items: seq<FSItem>, dir: string, site: Site, d: Disk): Run<Site>
    decreases ItemsSize(items), 1
  {
    if items == [] then Run(Success(site), d)
    else
      var item := items[0];
      if item.kind == Directory then
        var sub := ReadContentSpec(env, item, StageDir(dir, item), d);
        if sub.result.Failure? then Run(Failure(sub.result.error), sub.disk)
        else ReadItems(env, items[1..], dir, site.(subSites := site.subSites + [sub.result.value]), sub.disk)
      else
        var page := StagePage(env, item, dir, d);
        if page.result.Failure? then Run(Failure(page.result.error), page.disk)
        else ReadItems(env, items[1..], dir, site.(files := site.files + [page.result.value]), page.disk)
  }

  /** One file child of readContent: read it, compile it with the defaults, write
      the body to `${dir}/${name}.html` and describe it by a record. */
  function StagePage(env: Env, item: FSItem, dir: string, d: Disk): (r: Run<SiteRecord>)
    ensures r.result.Failure? ==> r.disk == d
    ensures r.result.Success? ==>
      var path := PagePath(dir, item.name);
      r.result.value.name == item.name && r.result.value.path == path &&
      path in r.disk.files && r.disk == WriteFile(d, path, r.disk.files[path])
  {
    match ReadFile(d, item.path)
    case Failure(e) => Run(Failure(e), d)
    case Success(text) =>
      match C.CompileDocument(env.libs, env.bars, text, env.defaults, item.extension)
      case Failure(e) => Run(Failure(e), d)
      case Success(page) =>
        var path := PagePath(dir, item.name);
        Run(Success(SiteRecord(page.metadata, item.name, path)), WriteFile(d, path, page.body))
  }

  /** A file child is staged exactly when it can be read and compiled; its
      record carries the merged metadata and the staged file holds the compiled body. */
  lemma StagePageCompiles(env: Env, item: FSItem, dir: string, d: Disk)
    ensures var r := StagePage(env, item, dir, d);
      r.result.Success? <==>
        item.path in d.files && C.CompileDocument(env.libs, env.bars, d.files[item.path], env.defaults, item.extension).Success?
    ensures var r := StagePage(env, item, dir, d);
      r.result.Success? ==>
        var page := C.CompileDocument(env.libs, env.bars, d.files[item.path], env.defaults, item.extension).value;
        r.result.value.metadata == page.metadata && r.disk.files[PagePath(dir, item.name)] == page.body
  {
  }

  /** One turn of the loop over a directory child. */
  lemma DirStep(env: Env, items: seq<FSItem>, dir: string, site: Site, d: Disk)
    requires items != [] && items[0].kind == Directory
    ensures var sub := ReadContentSpec(env, items[0], StageDir(dir, items[0]), d);
      var r := ReadItems(env, items, dir, site, d);
      (sub.result.Failure? ==> r.result.Failure? && r.disk == sub.disk) &&
      (sub.result.Success? ==> r == ReadItems(env, items[1..], dir, site.(subSites := site.subSites + [sub.result.value]), sub.disk))
  {
  }

  /** One turn of the loop over a file child. */
  lemma FileStep(env: Env, items: seq<FSItem>, dir: string, site: Site, d: Disk)
    requires items != [] && items[0].kind != Directory
    ensures var page := StagePage(env, items[0], dir, d);
      var r := ReadItems(env, items, dir, site, d);
      (page.result.Failure? ==> r.result.Failure? && r.disk == page.disk) &&
      (page.result.Success? ==> r == ReadItems(env, items[1..], dir, site.(files := site.files + [page.result.value]), page.disk))
  {
  }

  /** The loop never changes the folder's own name and path. */
  lemma {:induction false} ReadItemsHeader(env: Env, items: seq<FSItem>, dir: string, site: Site, d: Disk)
    ensures var r := ReadItems(env, items, dir, site, d).result;
      r.Success? ==> r.value.name == site.name && r.value.path == site.path
    decreases |items|
  {
    if items != [] {
      var item := items[0];
      if item.kind == Directory {
        var sub := ReadContentSpec(env, item, StageDir(dir, item), d);
        if sub.result.Success? {
          ReadItemsHeader(env, items[1..], dir, site.(subSites := site.subSites + [sub.result.value]), sub.disk);
        }
      } else {
        var page := StagePage(env, item, dir, d);
        if page.result.Success? {
          ReadItemsHeader(env, items[1..], dir, site.(files := site.files + [page.result.value]), page.disk);
        }
      }
    }
  }

  /** A staged folder carries the content directory's name and its staging path. */
  lemma ReadContentHeader(env: Env, content: FSItem, dir: string, d: Disk)
    ensures var r := ReadContentSpec(env, content, dir, d).result;
      r.Success? ==> r.value.name == content.name && r.value.path == dir
  {
    ReadItemsHeader(env, content.contents, dir, Helpers.NewSite(content.name, dir), Perform(d, Mkdirp(dir)));
  }

  function RecordNames(rs: seq<SiteRecord>): (r: seq<string>)
    ensures |r| == |rs| && forall i :: 0 <= i < |rs| ==> r[i] == rs[i].name
  {
    seq(|rs|, i requires 0 <= i < |rs| => rs[i].name)
  }

  function RecordPaths(rs: seq<SiteRecord>): (r: seq<string>)
    ensures |r| == |rs| && forall i :: 0 <= i < |rs| ==> r[i] == rs[i].path
  {
    seq(|rs|, i requires 0 <= i < |rs| => rs[i].path)
  }

  function SiteNames(ss: seq<Site>): (r: seq<string>)
    ensures |r| == |ss| && forall i :: 0 <= i < |ss| ==> r[i] == ss[i].name
  {
    seq(|ss|, i requires 0 <= i < |ss| => ss[i].name)
  }

  function SitePaths(ss: seq<Site>): (r: seq<string>)
    ensures |r| == |ss| && forall i :: 0 <= i < |ss| ==> r[i] == ss[i].path
  {
    seq(|ss|, i requires 0 <= i < |ss| => ss[i].path)
  }

  function ItemNames(items: seq<FSItem>): (r: seq<string>)
    ensures |r| == |items| && forall i :: 0 <= i < |items| ==> r[i] == items[i].name
  {
    seq(|items|, i requires 0 <= i < |items| => items[i].name)
  }

  /** Where the given file children are staged under dir. */
  function PagePaths(dir: string, items: seq<FSItem>): (r: seq<string>)
    ensures |r| == |items| && forall i :: 0 <= i < |items| ==> r[i] == PagePath(dir, items[i].name)
  {
    seq(|items|, i requires 0 <= i < |items| => PagePath(dir, items[i].name))
  }

  /** Where the given directory children are staged under dir. */
  function StageDirs(dir: string, items: seq<FSItem>): (r: seq<string>)
    ensures |r| == |items| && forall i :: 0 <= i < |items| ==> r[i] == StageDir(dir, items[i])
  {
    seq(|items|, i requires 0 <= i < |items| => StageDir(dir, items[i]))
  }

  lemma RecordsSnoc(rs: seq<SiteRecord>, r: SiteRecord)
    ensures RecordNames(rs + [r]) == RecordNames(rs) + [r.name]
    ensures RecordPaths(rs + [r]) == RecordPaths(rs) + [r.path]
  {
  }

  lemma SitesSnoc(ss: seq<Site>, s: Site)
    ensures SiteNames(ss + [s]) == SiteNames(ss) + [s.name]
    ensures SitePaths(ss + [s]) == SitePaths(ss) + [s.path]
  {
  }

  lemma ItemsCons(dir: string, item: FSItem, items: seq<FSItem>)
    ensures ItemNames([item] + items) == [item.name] + ItemNames(items)
    ensures PagePaths(dir, [item] + items) == [PagePath(dir, item.name)] + PagePaths(dir, items)
    ensures StageDirs(dir, [item] + items) == [StageDir(dir, item)] + StageDirs(dir, items)
  {
  }

  lemma SnocCons<T>(a: seq<T>, x: T, b: seq<T>)
    ensures (a + [x]) + b == a + ([x] + b)
  {
  }

  /** One record per file child, in order, each staged at `${dir}/${name}.html`. */
  lemma {:induction false} ReadItemsFiles(env: Env, items: seq<FSItem>, dir: string, site: Site, d: Disk)
    ensures var r := ReadItems(env, items, dir, site, d).result;
      r.Success? ==>
        RecordNames(r.value.files) == RecordNames(site.files) + ItemNames(FileChildren(items)) &&
        RecordPaths(r.value.files) == RecordPaths(site.files) + PagePaths(dir, FileChildren(items))
    decreases |items|
  {
    if items == [] {
      assert ItemNames([]) == [] && PagePaths(dir, []) == [];
      assert RecordNames(site.files) + [] == RecordNames(site.files);
      assert RecordPaths(site.files) + [] == RecordPaths(site.files);
    } else {
      var item := items[0];
      var r := ReadItems(env, items, dir, site, d);
      if item.kind == Directory {
        var sub := ReadContentSpec(env, item, StageDir(dir, item), d);
        DirStep(env, items, dir, site, d);
        if sub.result.Success? {
          var site' := site.(subSites := site.subSites + [sub.result.value]);
          ReadItemsFiles(env, items[1..], dir, site', sub.disk);
          assert FileChildren(items) == FileChildren(items[1..]);
        }
      } else {
        var page := StagePage(env, item, dir, d);
        FileStep(env, items, dir, site, d);
        if page.result.Success? {
          var rec := page.result.value;
          var site' := site.(files := site.files + [rec]);
          if r.result.Success? {
            var fc := FileChildren(items[1..]);
            ReadItemsFiles(env, items[1..], dir, site', page.disk);
            assert FileChildren(items) == [item] + fc;
            RecordsSnoc(site.files, rec);
            ItemsCons(dir, item, fc);
            SnocCons(RecordNames(site.files), item.name, ItemNames(fc));
            SnocCons(RecordPaths(site.files), PagePath(dir, item.name), PagePaths(dir, fc));
          }
        }
      }
    }
  }

  /** One sub-site per directory child, in order, each staged under `${dir}/${item.base}`. */
  lemma {:induction false} ReadItemsSubSites(env: Env, items: seq<FSItem>, dir: string, site: Site, d: Disk)
    ensures var r := ReadItems(env, items, dir, site, d).result;
      r.Success? ==>
        SiteNames(r.value.subSites) == SiteNames(site.subSites) + ItemNames(DirChildren(items)) &&
        SitePaths(r.value.subSites) == SitePaths(site.subSites) + StageDirs(dir, DirChildren(items))
    decreases |items|
  {
    if items != [] {
      var item := items[0];
      var r := ReadItems(env, items, dir, site, d);
      if item.kind == Directory {
        var sub := ReadContentSpec(env, item, StageDir(dir, item), d);
        DirStep(env, items, dir, site, d);
        if sub.result.Success? && r.result.Success? {
          ReadContentHeader(env, item, StageDir(dir, item), d);
          var subs' := site.subSites + [sub.result.value];
          ReadItemsSubSites(env, items[1..], dir, site.(subSites := subs'), sub.disk);
          var dc := DirChildren(items[1..]);
          assert DirChildren(items) == [item] + dc;
          SitesSnoc(site.subSites, sub.result.value);
          ItemsCons(dir, item, dc);
          SnocCons(SiteNames(site.subSites), item.name, ItemNames(dc));
          SnocCons(SitePaths(site.subSites), StageDir(dir, item), StageDirs(dir, dc));
        }
      } else {
        var page := StagePage(env, item, dir, d);
        FileStep(env, items, dir, site, d);
        if page.result.Success? {
          ReadItemsSubSites(env, items[1..], dir, site.(files := site.files + [page.result.value]), page.disk);
          assert DirChildren(items) == DirChildren(items[1..]);
        }
      }
    }
  }

  /** readContent builds the folder of the content directory: its name, its
      staging path, one record per file and one sub-site per directory, in the
      order of the directory's contents. */
  lemma ReadContentShape(env: Env, content: FSItem, dir: string, d: Disk)
    ensures var r := ReadContentSpec(env, content, dir, d).result;
      r.Success? ==>
        var fc := FileChildren(content.contents);
        var dc := DirChildren(content.contents);
        r.value.name == content.name && r.value.path == dir &&
        RecordNames(r.value.files) == ItemNames(fc) && RecordPaths(r.value.files) == PagePaths(dir, fc) &&
        SiteNames(r.value.subSites) == ItemNames(dc) && SitePaths(r.value.subSites) == StageDirs(dir, dc)
  {
    var site := Helpers.NewSite(content.name, dir);
    var d' := Perform(d, Mkdirp(dir));
    ReadItemsHeader(env, content.contents, dir, site, d');
    ReadItemsFiles(env, content.contents, dir, site, d');
    ReadItemsSubSites(env, content.contents, dir, site, d');
    assert RecordNames([]) == [] && RecordPaths([]) == [] && SiteNames([]) == [] && SitePaths([]) == [];
  }

  /** The pages readContent stages, in the order it writes them: the contents
      in order, each subfolder's pages where that subfolder stands. */
  function StagedPaths(content: FSItem, dir: string): seq<string>
    decreases ItemSize(content), 0
  {
    StagedItems(content.contents, dir)
  }

  function StagedItems(items: seq<FSItem>, dir: string): seq<string>
    decreases ItemsSize(items), 1
  {
    if items == [] then []
    else
      (if items[0].kind == Directory then StagedPaths(items[0], StageDir(dir, items[0]))
       else [PagePath(dir, items[0].name)])
      + StagedItems(items[1..], dir)
  }

  lemma WriteOne(d: Disk, path: string, body: string)
    ensures Builds(d.log, WriteFile(d, path, body).log)
    ensures Written(WriteFile(d, path, body).log) == Written(d.log) + [path]
  {
    var log := WriteFile(d, path, body).log;
    assert log[..|log| - 1] == d.log;
  }

  lemma PerformOne(d: Disk, op: IoOp)
    requires !op.Write?
    ensures Written(Perform(d, op).log) == Written(d.log)
  {
    var log := Perform(d, op).log;
    assert log[..|log| - 1] == d.log;
  }

  lemma BuildsRefl(log: seq<IoOp>)
    ensures Builds(log, log)
  {
    assert log[..|log|] == log;
  }

  /** readContent only creates directories and writes files, whether it succeeds or not. */
  lemma {:induction false} ReadContentBuilds(env: Env, content: FSItem, dir: string, d: Disk)
    ensures Builds(d.log, ReadContentSpec(env, content, dir, d).disk.log)
    decreases ItemSize(content), 0
  {
    var d' := Perform(d, Mkdirp(dir));
    ReadItemsBuilds(env, content.contents, dir, Helpers.NewSite(content.name, dir), d');
    assert d'.log[..|d.log|] == d.log;
    BuildsTrans(d.log, d'.log, ReadContentSpec(env, content, dir, d).disk.log);
  }

  lemma {:induction false} ReadItemsBuilds(env: Env, items: seq<FSItem>, dir: string, site: Site, d: Disk)
    ensures Builds(d.log, ReadItems(env, items, dir, site, d).disk.log)
    decreases ItemsSize(items), 1
  {
    if items == [] {
      BuildsRefl(d.log);
    } else {
      var item := items[0];
      var r := ReadItems(env, items, dir, site, d);
      if item.kind == Directory {
        var sub := ReadContentSpec(env, item, StageDir(dir, item), d);
        ReadContentBuilds(env, item, StageDir(dir, item), d);
        if sub.result.Success? {
          ReadItemsBuilds(env, items[1..], dir, site.(subSites := site.subSites + [sub.result.value]), sub.disk);
          BuildsTrans(d.log, sub.disk.log, r.disk.log);
        }
      } else {
        var page := StagePage(env, item, dir, d);
        if page.result.Success? {
          var path := PagePath(dir, item.name);
          WriteOne(d, path, page.disk.files[path]);
          ReadItemsBuilds(env, items[1..], dir, site.(files := site.files + [page.result.value]), page.disk);
          BuildsTrans(d.log, page.disk.log, r.disk.log);
        } else {
          BuildsRefl(d.log);
        }
      }
    }
  }

  /** On success readContent has written exactly the staged pages, in order. */
  lemma {:induction false} ReadContentWrites(env: Env, content: FSItem, dir: string, d: Disk)
    ensures var r := ReadContentSpec(env, content, dir, d);
      r.result.Success? ==> Written(r.disk.log) == Written(d.log) + StagedPaths(content, dir)
    decreases ItemSize(content), 0
  {
    PerformOne(d, Mkdirp(dir));
    ReadItemsWrites(env, content.contents, dir, Helpers.NewSite(content.name, dir), Perform(d, Mkdirp(dir)));
  }

  lemma {:induction false} ReadItemsWrites(env: Env, items: seq<FSItem>, dir: string, site: Site, d: Disk)
    ensures var r := ReadItems(env, items, dir, site, d);
      r.result.Success? ==> Written(r.disk.log) == Written(d.log) + StagedItems(items, dir)
    decreases ItemsSize(items), 1
  {
    if items != [] {
      var item := items[0];
      var r := ReadItems(env, items, dir, site, d);
      if item.kind == Directory {
        var sub := ReadContentSpec(env, item, StageDir(dir, item), d);
        DirStep(env, items, dir, site, d);
        if sub.result.Success? && r.result.Success? {
          ReadContentWrites(env, item, StageDir(dir, item), d);
          ReadItemsWrites(env, items[1..], dir, site.(subSites := site.subSites + [sub.result.value]), sub.disk);
          var a, b, c := Written(d.log), StagedPaths(item, StageDir(dir, item)), StagedItems(items[1..], dir);
          assert StagedItems(items, dir) == b + c;
          Text.AppendAssoc(a, b, c);
        }
      } else {
        var page := StagePage(env, item, dir, d);
        FileStep(env, items, dir, site, d);
        if page.result.Success? && r.result.Success? {
          var path := PagePath(dir, item.name);
          WriteOne(d, path, page.disk.files[path]);
          ReadItemsWrites(env, items[1..], dir, site.(files := site.files + [page.result.value]), page.disk);
          assert StagedItems(items, dir) == [path] + StagedItems(items[1..], dir);
          SnocCons(Written(d.log), path, StagedItems(items[1..], dir));
        }
      }
    }
  }

  /* ---------------- writeSite ---------------- */

  /** writeSite(piece, dir): lay out the folder's pages into dir, then each
      subfolder into `${dir}/${name}`; every layout sees the whole site. */
  function WriteSiteSpec(env: Env, whole: Value, piece: Site, dir: string, d: Disk): Run<Site>
    decreases SiteSize(piece), 0
  {
    var pages := LayoutPages(env, whole, piece.files, dir, Perform(d, Mkdirp(dir)));
    if pages.result.Failure? then Run(Failure(pages.result.error), pages.disk)
    else
      var subs := WriteSubSites(env, whole, piece.subSites, dir, pages.disk);
      if subs.result.Failure? then Run(Failure(subs.result.error), subs.disk)
      else Run(Success(piece), subs.disk)
  }

  /** The second loop of writeSite, from a given subfolder on. */
  function WriteSubSites(env: Env, whole: Value, subs: seq<Site>, dir: string, d: Disk): Run<()>
    decreases SitesSize(subs), 1
  {
    if subs == [] then Run(Success(()), d)
    else
      var first := WriteSiteSpec(env, whole, subs[0], dir + "/" + subs[0].name, d);
      if first.result.Failure? then Run(Failure(first.result.error), first.disk)
      else WriteSubSites(env, whole, subs[1..], dir, first.disk)
  }

  /** The first loop of writeSite, from a given record on. */
  function LayoutPages(env: Env, whole: Value, records: seq<SiteRecord>, dir: string, d: Disk): Run<()>
    decreases |records|
  {
    if records == [] then Run(Success(()), d)
    else
      var page := LayoutPage(env, whole, records[0], dir, d);
      if page.result.Failure? then page
      else LayoutPages(env, whole, records[1..], dir, page.disk)
  }

  /** One page of writeSite: read the staged body back, put it into the page's
      layout with the whole site, and write the result to `${dir}/${name}.html`. */
  function LayoutPage(env: Env, whole: Value, rec: SiteRecord, dir: string, d: Disk): (r: Run<()>)
    ensures r.result.Failure? ==> r.disk == d
    ensures r.result.Success? ==>
      var path := PagePath(dir, rec.name);
      path in r.disk.files && r.disk == WriteFile(d, path, r.disk.files[path])
    ensures r.result.Success? <==>
      rec.path in d.files && C.RenderLayout(env.libs, env.bars, env.layouts, rec.metadata, whole, d.files[rec.path]).Success?
    ensures rec.path in d.files && C.LayoutName(rec.metadata) !in env.layouts && C.LayoutName(rec.metadata) !in C.InheritedMethods ==>
      r.result == Failure(LayoutNotFound)
    ensures r.result.Success? ==>
      r.disk.files[PagePath(dir, rec.name)]
        == C.RenderLayout(env.libs, env.bars, env.layouts, rec.metadata, whole, d.files[rec.path]).value
  {
    match ReadFile(d, rec.path)
    case Failure(e) => Run(Failure(e), d)
    case Success(body) =>
      match C.RenderLayout(env.libs, env.bars, env.layouts, rec.metadata, whole, body)
      case Failure(e) => Run(Failure(e), d)
      case Success(html) => Run(Success(()), WriteFile(d, PagePath(dir, rec.name), html))
  }

  /** The output pages of a folder, in pre-order: its own pages first, then each
      subfolder's under `${dir}/${name}`. */
  function OutputPaths(piece: Site, dir: string): seq<string>
    decreases SiteSize(piece), 0
  {
    RecordOutputs(dir, piece.files) + SubOutputs(piece.subSites, dir)
  }

  function SubOutputs(subs: seq<Site>, dir: string): seq<string>
    decreases SitesSize(subs), 1
  {
    if subs == [] then []
    else OutputPaths(subs[0], dir + "/" + subs[0].name) + SubOutputs(subs[1..], dir)
  }

  function RecordOutputs(dir: string, records: seq<SiteRecord>): (r: seq<string>)
    ensures |r| == |records| && forall i :: 0 <= i < |records| ==> r[i] == PagePath(dir, records[i].name)
  {
    seq(|records|, i requires 0 <= i < |records| => PagePath(dir, records[i].name))
  }

  lemma RecordOutputsCons(dir: string, records: seq<SiteRecord>)
    requires records != []
    ensures RecordOutputs(dir, records) == [PagePath(dir, records[0].name)] + RecordOutputs(dir, records[1..])
  {
  }

  /** The page loop only writes files, whether it succeeds or not. */
  lemma {:induction false} LayoutPagesBuilds(env: Env, whole: Value, records: seq<SiteRecord>, dir: string, d: Disk)
    ensures Builds(d.log, LayoutPages(env, whole, records, dir, d).disk.log)
    decreases |records|
  {
    if records == [] {
      BuildsRefl(d.log);
    } else {
      var page := LayoutPage(env, whole, records[0], dir, d);
      if page.result.Success? {
        var path := PagePath(dir, records[0].name);
        WriteOne(d, path, page.disk.files[path]);
        LayoutPagesBuilds(env, whole, records[1..], dir, page.disk);
        BuildsTrans(d.log, page.disk.log, LayoutPages(env, whole, records, dir, d).disk.log);
      } else {
        BuildsRefl(d.log);
      }
    }
  }

  /** On success the page loop has written one page per record, in order. */
  lemma {:induction false} LayoutPagesWrites(env: Env, whole: Value, records: seq<SiteRecord>, dir: string, d: Disk)
    ensures var r := LayoutPages(env, whole, records, dir, d);
      r.result.Success? ==> Written(r.disk.log) == Written(d.log) + RecordOutputs(dir, records)
    decreases |records|
  {
    if records != [] {
      var page := LayoutPage(env, whole, records[0], dir, d);
      var r := LayoutPages(env, whole, records, dir, d);
      if page.result.Success? && r.result.Success? {
        var path := PagePath(dir, records[0].name);
        WriteOne(d, path, page.disk.files[path]);
        LayoutPagesWrites(env, whole, records[1..], dir, page.disk);
        RecordOutputsCons(dir, records);
        SnocCons(Written(d.log), path, RecordOutputs(dir, records[1..]));
      }
    }
  }

  /** writeSite only creates directories and writes files, whether it succeeds or not. */
  lemma {:induction false} WriteSiteBuilds(env: Env, whole: Value, piece: Site, dir: string, d: Disk)
    ensures Builds(d.log, WriteSiteSpec(env, whole, piece, dir, d).disk.log)
    decreases SiteSize(piece), 0
  {
    var d' := Perform(d, Mkdirp(dir));
    assert d'.log[..|d.log|] == d.log;
    var pages := LayoutPages(env, whole, piece.files, dir, d');
    LayoutPagesBuilds(env, whole, piece.files, dir, d');
    BuildsTrans(d.log, d'.log, pages.disk.log);
    if pages.result.Success? {
      WriteSubSitesBuilds(env, whole, piece.subSites, dir, pages.disk);
      BuildsTrans(d.log, pages.disk.log, WriteSubSites(env, whole, piece.subSites, dir, pages.disk).disk.log);
    }
  }

  lemma {:induction false} WriteSubSitesBuilds(env: Env, whole: Value, subs: seq<Site>, dir: string, d: Disk)
    ensures Builds(d.log, WriteSubSites(env, whole, subs, dir, d).disk.log)
    decreases SitesSize(subs), 1
  {
    if subs == [] {
      BuildsRefl(d.log);
    } else {
      var first := WriteSiteSpec(env, whole, subs[0], dir + "/" + subs[0].name, d);
      WriteSiteBuilds(env, whole, subs[0], dir + "/" + subs[0].name, d);
      if first.result.Success? {
        WriteSubSitesBuilds(env, whole, subs[1..], dir, first.disk);
        BuildsTrans(d.log, first.disk.log, WriteSubSites(env, whole, subs, dir, d).disk.log);
      }
    }
  }

  /** A successful writeSite is a successful page loop followed by a successful
      subfolder loop, and leaves the disk where the subfolder loop left it. */
  lemma WriteSiteUnfold(env: Env, whole: Value, piece: Site, dir: string, d: Disk)
    ensures var pages := LayoutPages(env, whole, piece.files, dir, Perform(d, Mkdirp(dir)));
      var subs := WriteSubSites(env, whole, piece.subSites, dir, pages.disk);
      var r := WriteSiteSpec(env, whole, piece, dir, d);
      r.result.Success? ==> pages.result.Success? && subs.result.Success? && r.disk == subs.disk
  {
  }

  /** On success writeSite has written its output pages in pre-order: a folder's own pages before its subfolders'. */
  lemma {:induction false} WriteSiteWrites(env: Env, whole: Value, piece: Site, dir: string, d: Disk)
    ensures var r := WriteSiteSpec(env, whole, piece, dir, d);
      r.result.Success? ==>
        Written(r.disk.log) == Written(d.log) + OutputPaths(piece, dir)
    decreases SiteSize(piece), 0
  {
    var r := WriteSiteSpec(env, whole, piece, dir, d);
    if r.result.Success? {
      var d' := Perform(d, Mkdirp(dir));
      var pages := LayoutPages(env, whole, piece.files, dir, d');
      var subs := WriteSubSites(env, whole, piece.subSites, dir, pages.disk);
      var a, b, c := Written(d.log), RecordOutputs(dir, piece.files), SubOutputs(piece.subSites, dir);
      assert pages.result.Success? && subs.result.Success? && r.disk == subs.disk by {
        WriteSiteUnfold(env, whole, piece, dir, d);
      }
      assert Written(pages.disk.log) == a + b by {
        PerformOne(d, Mkdirp(dir));
        LayoutPagesWrites(env, whole, piece.files, dir, d');
      }
      assert Written(subs.disk.log) == Written(pages.disk.log) + c by {
        WriteSubSitesWrites(env, whole, piece.subSites, dir, pages.disk);
      }
      Text.AppendAssoc(a, b, c);
    }
  }

  lemma {:induction false} WriteSubSitesWrites(env: Env, whole: Value, subs: seq<Site>, dir: string, d: Disk)
    ensures var r := WriteSubSites(env, whole, subs, dir, d);
      r.result.Success? ==> Written(r.disk.log) == Written(d.log) + SubOutputs(subs, dir)
    decreases SitesSize(subs), 1
  {
    if subs != [] {
      var sub := dir + "/" + subs[0].name;
      var first := WriteSiteSpec(env, whole, subs[0], sub, d);
      var r := WriteSubSites(env, whole, subs, dir, d);
      if first.result.Success? && r.result.Success? {
        WriteSiteWrites(env, whole, subs[0], sub, d);
        WriteSubSitesWrites(env, whole, subs[1..], dir, first.disk);
        var a, b, c := Written(d.log), OutputPaths(subs[0], sub), SubOutputs(subs[1..], dir);
        assert SubOutputs(subs, dir) == b + c;
        Text.AppendAssoc(a, b, c);
      }
    }
  }

  /** writeSite returns the folder it was given. */
  lemma WriteSiteReturns(env: Env, whole: Value, piece: Site, dir: string, d: Disk)
    ensures var r := WriteSiteSpec(env, whole, piece, dir, d).result;
      r.Success? ==> r.value == piece
  {
  }

  /* ---------------- readSrcDir and generate ---------------- */

  /** What the engine holds between steps: its compiler's environment and layout
      table, the site tree, the defaults, and the disk. */
  datatype BuildState = BuildState(bars: Bars, layouts: map<string, string>, site: Site, defaults: Value, disk: Disk)

  datatype Build = Build(result: Outcome<Error>, state: BuildState)

  /** The children of a reserved directory read in order, up to the first that cannot be read. */
  datatype Reads = Reads(outcome: Outcome<Error>, entries: seq<(string, string)>)

  function ReadChildren(children: seq<FSItem>, d: Disk): (r: Reads)
    ensures |r.entries| <= |children|
    ensures r.outcome.Pass? <==> |r.entries| == |children|
  {
    if children == [] then Reads(Pass, [])
    else
      match ReadFile(d, children[0].path)
      case Failure(e) => Reads(Fail(e), [])
      case Success(text) =>
        var rest := ReadChildren(children[1..], d);
        Reads(rest.outcome, [(children[0].name, text)] + rest.entries)
  }

  /** Reading stops exactly at the first child that is not a readable file, and
      every entry before it is that child's name and text. */
  lemma {:induction false} ReadChildrenStops(children: seq<FSItem>, d: Disk)
    ensures var r := ReadChildren(children, d);
      (forall i :: 0 <= i < |r.entries| ==>
        children[i].path in d.files && r.entries[i] == (children[i].name, d.files[children[i].path])) &&
      (r.outcome.Fail? ==>
        children[|r.entries|].path !in d.files && r.outcome.error == ReadFailed(children[|r.entries|].path))
  {
    if children != [] && children[0].path in d.files {
      ReadChildrenStops(children[1..], d);
    }
  }

  /** Reading the children from the i-th on: the i-th child's text, then the rest. */
  lemma ReadChildrenAt(children: seq<FSItem>, i: nat, d: Disk)
    requires i < |children|
    ensures var rest := ReadChildren(children[i..], d);
      var next := ReadChildren(children[i + 1..], d);
      (children[i].path !in d.files ==> rest == Reads(Fail(ReadFailed(children[i].path)), [])) &&
      (children[i].path in d.files ==>
        rest == Reads(next.outcome, [(children[i].name, d.files[children[i].path])] + next.entries))
  {
    assert children[i..][0] == children[i] && children[i..][1..] == children[i + 1..];
  }

  function SourceEntries(entries: seq<(string, string)>): (r: seq<(string, Partial)>)
    ensures |r| == |entries| && forall i :: 0 <= i < |entries| ==> r[i] == (entries[i].0, Source(entries[i].1))
  {
    seq(|entries|, i requires 0 <= i < |entries| => (entries[i].0, Source(entries[i].1)))
  }

  lemma SourceEntriesSnoc(entries: seq<(string, string)>, entry: (string, string))
    ensures SourceEntries(entries + [entry]) == SourceEntries(entries) + [(entry.0, Source(entry.1))]
  {
  }

  /** `require(helper.path)(Handlebars)`: the model keeps the module path. */
  function HelperEntries(children: seq<FSItem>): (r: seq<(string, Helper)>)
    ensures |r| == |children| && forall i :: 0 <= i < |children| ==> r[i] == (children[i].name, Helper(children[i].path))
  {
    seq(|children|, i requires 0 <= i < |children| => (children[i].name, Helper(children[i].path)))
  }

  /** readLayout: addLayout(name, text) for each child, in order. */
  function LoadLayouts(item: FSItem, st: BuildState): Build {
    var got := ReadChildren(item.contents, st.disk);
    Build(got.outcome, st.(layouts := Register(st.layouts, got.entries)))
  }

  /** readPartial: addPartial(name, text) for each child, in order. */
  function LoadPartials(item: FSItem, st: BuildState): Build {
    var got := ReadChildren(item.contents, st.disk);
    Build(got.outcome, st.(bars := st.bars.(partials := Register(st.bars.partials, SourceEntries(got.entries)))))
  }

  /** readHelper: addHelper(name, module) for each child, in order. */
  function LoadHelpers(item: FSItem, st: BuildState): Build {
    Build(Pass, st.(bars := st.bars.(helpers := Register(st.bars.helpers, HelperEntries(item.contents)))))
  }

  /** One turn of readSrcDir's switch. The "defaults" case has no break and goes
      on into the "layouts" case. */
  function DispatchItem(libs: Libraries, item: FSItem, st: BuildState): Build {
    if item.name == "defaults" then
      match ReadFile(st.disk, item.path)
      case Failure(e) => Build(Fail(e), st)
      case Success(text) =>
        match libs.yaml(text)
        case Failure(reason) => Build(Fail(YamlSyntax(reason)), st)
        case Success(v) => LoadLayouts(item, st.(defaults := if Truthy(v) then v else EmptyObject))
    else if item.name == "layouts" then LoadLayouts(item, st)
    else if item.name == "partials" then LoadPartials(item, st)
    else if item.name == "helpers" then LoadHelpers(item, st)
    else if item.name == "content" then
      var run := ReadContentSpec(Env(libs, st.bars, st.layouts, st.defaults), item, TempDir, st.disk);
      if run.result.Failure? then Build(Fail(run.result.error), st.(disk := run.disk))
      else Build(Pass, st.(site := run.result.value, disk := run.disk))
    else if item.name == "static" then Build(Pass, st.(disk := Perform(st.disk, CopyDir(item.path, StaticDir))))
    else Build(Pass, st)
  }

  /** readSrcDir from a given top-level item on; the first error ends it. */
  function ReadSrcDirSpec(libs: Libraries, items: seq<FSItem>, st: BuildState): Build
    decreases |items|
  {
    if items == [] then Build(Pass, st)
    else
      var b := DispatchItem(libs, items[0], st);
      if b.result.Fail? then b else ReadSrcDirSpec(libs, items[1..], b.state)
  }

  /** generate: read the source directory, write the site from the tree it built,
      then remove the staging directory. An error ends the build where it occurs. */
  function GenerateSpec(libs: Libraries, items: seq<FSItem>, st: BuildState): Build {
    var read := ReadSrcDirSpec(libs, items, st);
    if read.result.Fail? then read
    else
      var s := read.state;
      var written := WriteSiteSpec(Env(libs, s.bars, s.layouts, s.defaults), SiteValue(s.site), s.site, SiteDir, s.disk);
      if written.result.Failure? then Build(Fail(written.result.error), s.(disk := written.disk))
      else Build(Pass, s.(disk := Perform(written.disk, Remove(TempDir))))
  }

  predicate Reserved(name: string) {
    name in {"defaults", "layouts", "partials", "helpers", "content", "static"}
  }

  /** The top-level items readSrcDir acts on. */
  function ReservedItems(items: seq<FSItem>): seq<FSItem> {
    if items == [] then []
    else (if Reserved(items[0].name) then [items[0]] else []) + ReservedItems(items[1..])
  }

  /** Top-level items with other names are ignored: dropping them changes nothing. */
  lemma {:induction false} ReadSrcDirIgnores(libs: Libraries, items: seq<FSItem>, st: BuildState)
    ensures ReadSrcDirSpec(libs, ReservedItems(items), st) == ReadSrcDirSpec(libs, items, st)
  {
    if items != [] {
      var b := DispatchItem(libs, items[0], st);
      if Reserved(items[0].name) {
        assert ReservedItems(items) == [items[0]] + ReservedItems(items[1..]);
        if b.result.Pass? {
          ReadSrcDirIgnores(libs, items[1..], b.state);
        }
      } else {
        assert b == Build(Pass, st);
        assert ReservedItems(items) == ReservedItems(items[1..]);
        ReadSrcDirIgnores(libs, items[1..], st);
      }
    }
  }

  /** The defaults file is also read as a layouts directory, after the defaults
      become its YAML value, or {} when that value is falsy. */
  lemma DefaultsFallThrough(libs: Libraries, item: FSItem, st: BuildState)
    requires item.name == "defaults" && item.path in st.disk.files
    requires libs.yaml(st.disk.files[item.path]).Success?
    ensures var v := libs.yaml(st.disk.files[item.path]).value;
      DispatchItem(libs, item, st)
        == DispatchItem(libs, item.(name := "layouts"), st.(defaults := if Truthy(v) then v else EmptyObject))
  {
  }

  /** After readLayout, a layout name takes the text of the last readable child
      of that name, when no child before it failed to read. */
  lemma LoadLayoutsLastWins(item: FSItem, st: BuildState, i: nat)
    requires i < |item.contents|
    requires forall j :: 0 <= j < |item.contents| ==> item.contents[j].path in st.disk.files
    requires forall j :: i < j < |item.contents| ==> item.contents[j].name != item.contents[i].name
    ensures var b := LoadLayouts(item, st);
      b.result.Pass? && item.contents[i].name in b.state.layouts &&
      b.state.layouts[item.contents[i].name] == st.disk.files[item.contents[i].path]
  {
    var got := ReadChildren(item.contents, st.disk);
    ReadChildrenStops(item.contents, st.disk);
    RegisterLastWins(st.layouts, got.entries, i);
  }

  /** No step of readSrcDir removes anything, whether it succeeds or not. */
  lemma DispatchKeeps(libs: Libraries, item: FSItem, st: BuildState)
    ensures Keeps(st.disk.log, DispatchItem(libs, item, st).state.disk.log)
  {
    var b := DispatchItem(libs, item, st);
    if item.name == "content" {
      var env := Env(libs, st.bars, st.layouts, st.defaults);
      ReadContentBuilds(env, item, TempDir, st.disk);
      BuildsKeeps(st.disk.log, ReadContentSpec(env, item, TempDir, st.disk).disk.log);
    } else if item.name == "static" {
      assert b.state.disk.log[..|st.disk.log|] == st.disk.log;
    } else {
      KeepsRefl(st.disk.log);
    }
  }

  lemma {:induction false} ReadSrcDirKeeps(libs: Libraries, items: seq<FSItem>, st: BuildState)
    ensures Keeps(st.disk.log, ReadSrcDirSpec(libs, items, st).state.disk.log)
    decreases |items|
  {
    if items == [] {
      KeepsRefl(st.disk.log);
    } else {
      var b := DispatchItem(libs, items[0], st);
      DispatchKeeps(libs, items[0], st);
      if b.result.Pass? {
        ReadSrcDirKeeps(libs, items[1..], b.state);
        KeepsTrans(st.disk.log, b.state.disk.log, ReadSrcDirSpec(libs, items, st).state.disk.log);
      }
    }
  }

  /** The staging directory is removed once, as the last operation, and only
      when the build succeeds; a failed build leaves it in place. */
  lemma GenerateCleanup(libs: Libraries, items: seq<FSItem>, st: BuildState)
    ensures var b := GenerateSpec(libs, items, st);
      var log := b.state.disk.log;
      (b.result.Pass? ==>
        |st.disk.log| < |log| && log[|log| - 1] == Remove(TempDir) && Keeps(st.disk.log, log[..|log| - 1])) &&
      (b.result.Fail? ==> Keeps(st.disk.log, log))
  {
    var read := ReadSrcDirSpec(libs, items, st);
    ReadSrcDirKeeps(libs, items, st);
    if read.result.Pass? {
      var s := read.state;
      var env := Env(libs, s.bars, s.layouts, s.defaults);
      var written := WriteSiteSpec(env, SiteValue(s.site), s.site, SiteDir, s.disk);
      WriteSiteBuilds(env, SiteValue(s.site), s.site, SiteDir, s.disk);
      BuildsKeeps(s.disk.log, written.disk.log);
      KeepsTrans(st.disk.log, s.disk.log, written.disk.log);
      var log := GenerateSpec(libs, items, st).state.disk.log;
      if written.result.Success? {
        assert log[..|log| - 1] == written.disk.log;
      }
    }
  }

  /** A successful build ends by writing every page of the site tree it read,
      in pre-order under ./site. */
  lemma GenerateWrites(libs: Libraries, items: seq<FSItem>, st: BuildState)
    ensures var read := ReadSrcDirSpec(libs, items, st);
      var b := GenerateSpec(libs, items, st);
      b.result.Pass? ==>
        read.result.Pass? &&
        Written(b.state.disk.log) == Written(read.state.disk.log) + OutputPaths(read.state.site, SiteDir)
  {
    var read := ReadSrcDirSpec(libs, items, st);
    if read.result.Pass? {
      var s := read.state;
      var env := Env(libs, s.bars, s.layouts, s.defaults);
      var written := WriteSiteSpec(env, SiteValue(s.site), s.site, SiteDir, s.disk);
      WriteSiteWrites(env, SiteValue(s.site), s.site, SiteDir, s.disk);
      if written.result.Success? {
        PerformOne(written.disk, Remove(TempDir));
      }
    }
  }

  /* ---------------- the engine object ---------------- */

  /** The engine: the top-level items of the source directory, its compiler,
      the site tree and defaults it collects, and the disk it works on (the file
      system fs and fs-extra act on, held here so that every step can say what
      it did to it). */
  class Engine {
    const dir: seq<FSItem>
    const compiler: C.Compiler
    var site: Site
    var defaults: Value
    var disk: Disk

    /** The source tree is given rather than walked from ./example. */
    constructor(libs: Libraries, dir: seq<FSItem>, files: map<string, string>)
      ensures this.dir == dir && fresh(compiler) && compiler.libs == libs
      ensures compiler.bars == EmptyBars && compiler.layouts == map[]
      ensures site == Helpers.NewSite("", "./") && defaults == EmptyObject
      ensures disk == Disk(files, [])
    {
      this.dir := dir;
      compiler := new C.Compiler(libs);
      site := Helpers.NewSite("", "./");
      defaults := EmptyObject;
      disk := Disk(files, []);
    }

    /** Everything the build reads and changes. */
    function State(): BuildState
      reads this, compiler
    {
      BuildState(compiler.bars, compiler.layouts, site, defaults, disk)
    }

    /** What compile and compileLayout see right now. */
    function Environment(): Env
      reads this, compiler
    {
      Env(compiler.libs, compiler.bars, compiler.layouts, defaults)
    }

    /** readLayout: each child's text is registered as a layout under its name;
        the first child that cannot be read ends the loop with its error. */
    method ReadLayout(item: FSItem) returns (r: Outcome<Error>)
      modifies compiler`layouts
      ensures Build(r, State()) == LoadLayouts(item, old(State()))
    {
      ghost var total := ReadChildren(item.contents, disk);
      ghost var done: seq<(string, string)> := [];
      var i := 0;
      while i < |item.contents|
        invariant i <= |item.contents|
        invariant compiler.layouts == Register(old(compiler.layouts), done)
        invariant var rest := ReadChildren(item.contents[i..], disk);
          total == Reads(rest.outcome, done + rest.entries)
      {
        var child := item.contents[i];
        ReadChildrenAt(item.contents, i, disk);
        match ReadFile(disk, child.path)
        case Failure(e) =>
          assert done + [] == done;
          return Fail(e);
        case Success(text) =>
          SnocCons(done, (child.name, text), ReadChildren(item.contents[i + 1..], disk).entries);
          RegisterSnoc(old(compiler.layouts), done, (child.name, text));
          compiler.AddLayout(child.name, text);
          done := done + [(child.name, text)];
        i := i + 1;
      }
      assert item.contents[i..] == [] && done + [] == done;
      return Pass;
    }

    /** readPartial: each child's text is registered as a partial under its name;
        the first child that cannot be read ends the loop with its error. */
    method ReadPartial(item: FSItem) returns (r: Outcome<Error>)
      modifies compiler`bars
      ensures Build(r, State()) == LoadPartials(item, old(State()))
    {
      ghost var total := ReadChildren(item.contents, disk);
      ghost var done: seq<(string, string)> := [];
      var i := 0;
      while i < |item.contents|
        invariant i <= |item.contents|
        invariant compiler.bars == old(compiler.bars).(partials := Register(old(compiler.bars.partials), SourceEntries(done)))
        invariant var rest := ReadChildren(item.contents[i..], disk);
          total == Reads(rest.outcome, done + rest.entries)
      {
        var child := item.contents[i];
        ReadChildrenAt(item.contents, i, disk);
        match ReadFile(disk, child.path)
        case Failure(e) =>
          assert done + [] == done;
          return Fail(e);
        case Success(text) =>
          SnocCons(done, (child.name, text), ReadChildren(item.contents[i + 1..], disk).entries);
          SourceEntriesSnoc(done, (child.name, text));
          RegisterSnoc(old(compiler.bars.partials), SourceEntries(done), (child.name, Source(text)));
          compiler.AddPartial(child.name, text);
          done := done + [(child.name, text)];
        i := i + 1;
      }
      assert item.contents[i..] == [] && done + [] == done;
      return Pass;
    }

    /** readHelper: each child's module is registered as a helper under its name. */
    method ReadHelper(item: FSItem) returns (r: Outcome<Error>)
      modifies compiler`bars
      ensures Build(r, State()) == LoadHelpers(item, old(State()))
    {
      ghost var entries := HelperEntries(item.contents);
      for i := 0 to |item.contents|
        invariant compiler.bars == old(compiler.bars).(helpers := Register(old(compiler.bars.helpers), entries[..i]))
      {
        RegisterStep(old(compiler.bars.helpers), entries, i);
        compiler.AddHelper(item.contents[i].name, Helper(item.contents[i].path));
      }
      assert entries[..|item.contents|] == entries;
      return Pass;
    }

    /** copyStatic: the static directory is copied to ./site/static. */
    method CopyStatic(item: FSItem)
      modifies this`disk
      ensures disk == Perform(old(disk), CopyDir(item.path, StaticDir))
    {
      disk := Perform(disk, CopyDir(item.path, StaticDir));
    }

    /** removeTempDir: the staging directory is removed. */
    method RemoveTempDir()
      modifies this`disk
      ensures disk == Perform(old(disk), Remove(TempDir))
    {
      disk := Perform(disk, Remove(TempDir));
    }

    /** One file child of readContent: read, compile with the defaults, write
        the body to `${dir}/${name}.html`, and describe the page by a record. */
    method StageFile(item: FSItem, dir: string) returns (r: Result<SiteRecord, Error>)
      modifies this`disk
      ensures Run(r, disk) == StagePage(Environment(), item, dir, old(disk))
    {
      match ReadFile(disk, item.path)
      case Failure(e) =>
        return Failure(e);
      case Success(text) =>
        var page := compiler.Compile(text, defaults, item);
        if page.Failure? {
          return Failure(page.error);
        }
        var path := PagePath(dir, item.name);
        disk := WriteFile(disk, path, page.value.body);
        return Success(SiteRecord(page.value.metadata, item.name, path));
    }

    /** readContent(content, dir): stage the content tree under dir and return
        its folder; an unreadable or uncompilable page ends it with its error. */
    method ReadContent(content: FSItem, dir: string) returns (r: Result<Site, Error>)
      modifies this`disk
      ensures Run(r, disk) == ReadContentSpec(Environment(), content, dir, old(disk))
      decreases ItemSize(content)
    {
      ghost var env := Environment();
      var s := Helpers.NewSite(content.name, dir);
      disk := Perform(disk, Mkdirp(dir));
      var i := 0;
      while i < |content.contents|
        invariant i <= |content.contents|
        invariant ItemsSize(content.contents[i..]) <= ItemsSize(content.contents)
        invariant ReadContentSpec(env, content, dir, old(disk)) == ReadItems(env, content.contents[i..], dir, s, disk)
      {
        var item := content.contents[i];
        ghost var rest := content.contents[i..];
        assert rest[0] == item && rest[1..] == content.contents[i + 1..];
        if item.kind == Directory {
          DirStep(env, rest, dir, s, disk);
          var sub := ReadContent(item, StageDir(dir, item));
          if sub.Failure? {
            return Failure(sub.error);
          }
          s := s.(subSites := s.subSites + [sub.value]);
        } else {
          FileStep(env, rest, dir, s, disk);
          var page := StageFile(item, dir);
          if page.Failure? {
            return Failure(page.error);
          }
          s := s.(files := s.files + [page.value]);
        }
        i := i + 1;
      }
      assert content.contents[i..] == [];
      return Success(s);
    }

    /** The first loop of writeSite: each record's staged body in its layout,
        written to `${dir}/${name}.html`; the first failure ends it. */
    method WritePages(records: seq<SiteRecord>, dir: string) returns (r: Result<(), Error>)
      modifies this`disk
      ensures Run(r, disk) == LayoutPages(Environment(), SiteValue(site), records, dir, old(disk))
    {
      ghost var env := Environment();
      ghost var whole := SiteValue(site);
      var i := 0;
      while i < |records|
        invariant i <= |records|
        invariant LayoutPages(env, whole, records, dir, old(disk)) == LayoutPages(env, whole, records[i..], dir, disk)
      {
        var rec := records[i];
        assert records[i..][0] == rec && records[i..][1..] == records[i + 1..];
        match ReadFile(disk, rec.path)
        case Failure(e) =>
          return Failure(e);
        case Success(body) =>
          var html := compiler.CompileLayout(rec.metadata, site, body);
          if html.Failure? {
            return Failure(html.error);
          }
          disk := WriteFile(disk, PagePath(dir, rec.name), html.value);
        i := i + 1;
      }
      return Success(());
    }

    /** writeSite(piece, dir): every page of the folder in its layout, then every
        subfolder under `${dir}/${name}`; layouts see the whole site tree. */
    method WriteSite(piece: Site, dir: string) returns (r: Result<Site, Error>)
      modifies this`disk
      ensures Run(r, disk) == WriteSiteSpec(Environment(), SiteValue(site), piece, dir, old(disk))
      decreases SiteSize(piece)
    {
      ghost var env := Environment();
      ghost var whole := SiteValue(site);
      disk := Perform(disk, Mkdirp(dir));
      var pages := WritePages(piece.files, dir);
      if pages.Failure? {
        return Failure(pages.error);
      }
      ghost var middle := disk;
      var j := 0;
      while j < |piece.subSites|
        invariant j <= |piece.subSites|
        invariant SitesSize(piece.subSites[j..]) <= SitesSize(piece.subSites)
        invariant WriteSubSites(env, whole, piece.subSites, dir, middle) == WriteSubSites(env, whole, piece.subSites[j..], dir, disk)
      {
        var sub := piece.subSites[j];
        assert piece.subSites[j..][0] == sub && piece.subSites[j..][1..] == piece.subSites[j + 1..];
        var written := WriteSite(sub, dir + "/" + sub.name);
        if written.Failure? {
          return Failure(written.error);
        }
        j := j + 1;
      }
      return Success(piece);
    }

    /** readSrcDir: each top-level item in order, by name; the first error ends it. */
    method ReadSrcDir() returns (r: Outcome<Error>)
      modifies this`site, this`defaults, this`disk, compiler`bars, compiler`layouts
      ensures Build(r, State()) == ReadSrcDirSpec(compiler.libs, dir, old(State()))
    {
      var i := 0;
      while i < |dir|
        invariant i <= |dir|
        invariant ReadSrcDirSpec(compiler.libs, dir, old(State())) == ReadSrcDirSpec(compiler.libs, dir[i..], State())
      {
        var item := dir[i];
        assert dir[i..][0] == item && dir[i..][1..] == dir[i + 1..];
        ghost var before := State();
        var step := Pass;
        if item.name == "defaults" {
          match ReadFile(disk, item.path)
          case Failure(e) =>
            return Fail(e);
          case Success(text) =>
            match compiler.libs.yaml(text)
            case Failure(reason) =>
              return Fail(YamlSyntax(reason));
            case Success(v) =>
              defaults := if Truthy(v) then v else EmptyObject;
              step := ReadLayout(item);
        } else if item.name == "layouts" {
          step := ReadLayout(item);
        } else if item.name == "partials" {
          step := ReadPartial(item);
        } else if item.name == "helpers" {
          step := ReadHelper(item);
        } else if item.name == "content" {
          var staged := ReadContent(item, TempDir);
          if staged.Failure? {
            return Fail(staged.error);
          }
          site := staged.value;
        } else if item.name == "static" {
          CopyStatic(item);
        }
        assert Build(step, State()) == DispatchItem(compiler.libs, item, before);
        if step.Fail? {
          return step;
        }
        i := i + 1;
      }
      return Pass;
    }

    /** generate: readSrcDir, then writeSite of the tree it built into ./site,
        then removeTempDir; an error ends it where it occurs. */
    method Generate() returns (r: Outcome<Error>)
      modifies this`site, this`defaults, this`disk, compiler`bars, compiler`layouts
      ensures Build(r, State()) == GenerateSpec(compiler.libs, dir, old(State()))
    {
      r := ReadSrcDir();
      if r.Fail? {
        return;
      }
      var written := WriteSite(site, SiteDir);
      if written.Failure? {
        return Fail(written.error);
      }
      RemoveTempDir();
      return Pass;
    }
  }
}
