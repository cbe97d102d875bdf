/** The shapes the build works on: the walked file tree and the site tree built from it. */
module Definitions {
  import opened JsValues

  datatype FSItemType = Directory | File

  /** One entry of the walked source tree; `contents` is empty for files. */
  datatype FSItem = FSItem(
    kind: FSItemType,
    name: string,        // file name without extension
    extension: string,   // with its dot, e.g. ".md"
    path: string,        // absolute path
    filename: string,    // file name with extension
    contents: seq<FSItem>)

  /** A compiled page of the site tree: its merged metadata, its name and where its body is staged. */
  datatype SiteRecord = SiteRecord(metadata: Value, name: string, path: string)

  /** One folder of the site tree. */
  datatype Site = Site(name: string, path: string, files: seq<SiteRecord>, subSites: seq<Site>)

  /** The children of a directory that are files, in order. */
  function FileChildren(items: seq<FSItem>): (r: seq<FSItem>)
    ensures |r| <= |items|
  {
    if items == [] then []
    else if items[0].kind == File then [items[0]] + FileChildren(items[1..])
    else FileChildren(items[1..])
  }

  /** The children of a directory that are directories, in order. */
  function DirChildren(items: seq<FSItem>): (r: seq<FSItem>)
    ensures |r| <= |items|
  {
    if items == [] then []
    else if items[0].kind == Directory then [items[0]] + DirChildren(items[1..])
    else DirChildren(items[1..])
  }

  /** Number of entries in a walked tree, counting the root: a termination measure. */
  function ItemSize(item: FSItem): (n: nat)
    ensures n >= 1
    decreases item, 1
  {
    1 + ItemsSize(item.contents)
  }

  function ItemsSize(items: seq<FSItem>): (n: nat)
    ensures items != [] ==> ItemSize(items[0]) <= n && ItemsSize(items[1..]) < n
    decreases items, 0
  {
    if items == [] then 0 else ItemSize(items[0]) + ItemsSize(items[1..])
  }

  /** Number of folders in a site tree, counting the root: a termination measure. */
  function SiteSize(s: Site): (n: nat)
    ensures n >= 1
    decreases s, 1
  {
    1 + SitesSize(s.subSites)
  }

  function SitesSize(ss: seq<Site>): (n: nat)
    ensures ss != [] ==> SiteSize(ss[0]) <= n && SitesSize(ss[1..]) < n
    decreases ss, 0
  {
    if ss == [] then 0 else SiteSize(ss[0]) + SitesSize(ss[1..])
  }

  /** The site tree as the plain JavaScript object templates receive. */
  function SiteValue(s: Site): Value
    decreases s
  {
    Obj(map[
      "name" := Str(s.name),
      "path" := Str(s.path),
      "files" := List(seq(|s.files|, i requires 0 <= i < |s.files| =>
        Obj(map["metadata" := s.files[i].metadata, "name" := Str(s.files[i].name), "path" := Str(s.files[i].path)]))),
      "subSites" := List(seq(|s.subSites|, i requires 0 <= i < |s.subSites| => SiteValue(s.subSites[i])))])
  }
}
