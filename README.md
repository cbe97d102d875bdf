# zircon site-tree build pipeline, modelled in Dafny

zircon turns a source directory into a static HTML site. This model covers the
parts of the build that hold real logic.

- **Front matter.** Three iterations of the front-matter parser:
  - `src/compiler/parser.ts`: the lenient `---` header, where a falsy YAML value becomes `{}`;
  - `src/engine/parser.ts`: the strict variant, which refuses a null header or a header without a string `layout`;
  - `src/parser.ts`: the `<<<…>>>` multi-block prototype.
- **Compiler** (`src/compiler/compiler.ts`): its layout registry, the merge of site defaults into page metadata, and dispatch on the page's extension.
- **Template engine** (`src/engine/engine.ts`): its constructor, which registers partials, helpers and layouts.
- **Site engine** (`src/engine.ts`): it loads the reserved top-level directories, stages the content tree into `./temp-site` while building the `Site` tree, writes every page into `./site` with the whole site in its layout context, and then removes the staging directory.
- **Generator** (`src/generator.ts`): the older build script. It collects engine options, describes the content tree as a `DirectoryStructure`, and renders each content file into `./site` with that structure in its context.

Some parts are outside the model and are given as values instead:

- **Libraries.** YAML, Handlebars expansion and Markdown rendering are fields of the function type `Foreign.Libraries`. A Handlebars environment is the `Bars` registry datatype.
- **Walker.** The walked source tree is an input `FSItem` datatype.
- **Filesystem.** `FileSystem.Disk` pairs the readable files with an append-only log of every filesystem call (`Mkdirp`, `Mkdir`, `Write`, `CopyDir`, `Remove`).

Each stateful part of the source is a Dafny class: `Compiler.Compiler`, `TemplateEngine.Engine`, `SiteEngine.Engine` and `Generator.Generator`. Its methods loop the way the source does. Each method is proved equal to a recursive specification function of the old state, and the lemmas about those functions state what the build promises.

Where the code and the design description of the system disagree, the model follows the code:

- defaults overwrite page keys (`Object.assign(metadata, defaults)`);
- a YAML error in a page header or in the defaults file aborts the build;
- the staging directory is not removed when the build fails;
- pages of any extension other than `.html` and `.md` are template-expanded, not copied;
- there is no `skip` flag and no favicon handling.

Some calls in the source do not match the signature they call. The model treats them as the interface they evidently use:

- `src/engine.ts:55` passes `(text, defaults)` to `compile`. This is modelled as `compile({document, defaults, item})`.
- `src/compiler/compiler.ts:4` imports `extractDocumentBodyAndMetadata`. This is modelled as the `parse` of `src/compiler/parser.ts`.
- `item.base` at `src/engine.ts:52` is the last path segment with its extension. This is `FSItem.filename`.
- `engine.render` at `src/generator.ts:90` is not a member of `src/engine/engine.ts`. It is modelled as a renderer parameter that sees the engine's partials and layouts.

## Model

| member | source | states |
|---|---|---|
| Text.Trim | src/compiler/parser.ts:16 | `String.prototype.trim`: the result neither starts nor ends with ECMAScript white space and is no longer than the input |
| Text.TrimIdempotent | src/compiler/parser.ts:16 | trimming twice is trimming once |
| Text.TrimOfPadded | src/compiler/parser.ts:11 | white space around an already trimmed text is exactly what trim removes |
| Text.Slice | src/compiler/parser.ts:10 | `slice(start, end)` with JavaScript clamping: inside the bounds it is the subsequence |
| Text.SliceFrom | src/compiler/parser.ts:11 | `slice(start)`: the suffix from start, or empty past the end |
| Text.Span | src/compiler/parser.ts:15 | the greedy run of a character class: every character before it is in the class and the next one is not |
| Text.SpanIs | src/compiler/parser.ts:15 | the greedy run ends exactly at the first character outside the class |
| Text.StripRunsNoMarks | src/compiler/parser.ts:6 | `replace(/-{3,}/g, "")` leaves text without the mark unchanged |
| Text.StripRunsOneRun | src/compiler/parser.ts:6 | a single run of three or more marks is removed entirely |
| Text.StripRunsAppend | src/compiler/parser.ts:6 | stripping distributes over a concatenation whose seam does not join two runs |
| Frontmatter.SplitHeader | src/compiler/parser.ts:15-17 | the anchored match of `^-{3,}[^-]+-{3,}` on the trimmed text splits it into header and remainder |
| Frontmatter.HeaderSplitIsForced | src/compiler/parser.ts:15 | any header match at index 0 has its dash runs and its middle exactly where the greedy spans put them |
| Frontmatter.SplitHeaderIsHeader | src/compiler/parser.ts:15 | the computed header matches the pattern |
| Frontmatter.SplitHeaderNoneIff | src/compiler/parser.ts:17-18 | no match is found exactly when no prefix of the trimmed text matches the pattern |
| Frontmatter.SplitHeaderIsLongestMatch | src/compiler/parser.ts:15-17 | the computed header is the longest prefix matching the pattern, and there is none exactly when no prefix matches |
| Frontmatter.HeaderStripsToMiddle | src/compiler/parser.ts:6 | the header with its dash runs removed is exactly the text between the delimiters |
| Frontmatter.ExtractYaml | src/compiler/parser.ts:9-12 | fails exactly when YAML fails on the header without its dash runs, with YAML's message; on success the body is `trim(rest)` and the metadata is YAML's value when truthy, `{}` otherwise |
| Frontmatter.Parse | src/compiler/parser.ts:14-24 | "Could not find yaml header" exactly when the trimmed text has no header match; a success has a trimmed body and truthy metadata |
| Frontmatter.ParseHeaderless | src/compiler/parser.ts:18 | parse fails with "Could not find yaml header" exactly when no prefix of the trimmed document is a header |
| Frontmatter.TrimOfDashed | src/compiler/parser.ts:16 | a document that starts and ends its header with dashes trims to the header followed by the trimmed remainder |
| Frontmatter.SplitOfConstructed | src/compiler/parser.ts:15 | `"---" + m + "---" + rest` splits into exactly that header and rest when m is dash-free and rest does not start with a dash |
| Frontmatter.StripOfConstructed | src/compiler/parser.ts:6 | the YAML of `"---" + m + "---"` is m |
| Frontmatter.ParseRoundTrip | src/compiler/parser.ts:9-24 | parsing `"---" + m + "---" + b` gives YAML's reading of m (or `{}` when falsy) and `trim(b)`, or YAML's error |
| Frontmatter.SplitOfHeader | src/compiler/parser.ts:15-17 | a header followed by text that does not start with a dash is matched up to the end of the header, and the rest is that text |
| Frontmatter.ParseOfHeader | src/compiler/parser.ts:9-24 | for any leading white space, any header the pattern matches and any body not starting with a dash: the metadata is YAML's reading of the text between the dash runs (or `{}` when falsy) and the body is `trim(body)`, or YAML's error |
| Frontmatter.DashInHeaderFails | src/compiler/parser.ts:15 | a header whose middle holds a run of one or two dashes is not found |
| Frontmatter.DateInHeaderFails | src/compiler/parser.ts:15 | a header holding the date `2017-09-05` is not found |
| StrictFrontmatter.ExtractYaml | src/engine/parser.ts:14-19 | a YAML failure is reported with YAML's message; "Invalid yaml header" exactly when YAML yields null; "Layout property missing" exactly when YAML yields a non-null value without a string `layout`; success exactly when YAML yields a value with a string `layout`, which becomes the metadata, and the body is `trim(rest)` |
| StrictFrontmatter.Parse | src/engine/parser.ts:21-31 | "Could not find yaml header" exactly when there is no header match; every success has a string `layout` and a trimmed body |
| StrictFrontmatter.ParseHeaderless | src/engine/parser.ts:25 | the missing-header error occurs exactly when no prefix of the trimmed document is a header |
| StrictFrontmatter.StrictAgreesWithLenient | src/engine/parser.ts:21-31 | a strict success equals the lenient result; a lenient success with a string `layout` equals the strict result; both report a missing header on the same documents |
| StrictFrontmatter.StrictRoundTrip | src/engine/parser.ts:14-31 | parsing `"---" + m + "---" + b` gives YAML's error, "Invalid yaml header" for null, "Layout property missing" without a string layout, or YAML's value with `trim(b)` |
| StrictFrontmatter.StrictParseOfHeader | src/engine/parser.ts:14-31 | for any leading white space, any matched header and any body not starting with a dash: YAML's error, "Invalid yaml header" for null, "Layout property missing" without a string layout, or YAML's value with `trim(body)` |
| PluginParser.MatchAt | src/parser.ts:41 | the greedy match of `<{3,}[^(>>>)]*>{3,}` at one position ends at least six characters later |
| PluginParser.BlockSplitIsForced | src/parser.ts:41 | any block match at a position ends where the greedy spans put its class run and closing run |
| PluginParser.MatchAtIsLongestBlock | src/parser.ts:41 | the computed match is the longest block starting there, and there is none exactly when no block starts there |
| PluginParser.NextMatchIsLeftmost | src/parser.ts:46 | `exec` from `lastIndex` finds the leftmost position where a block starts, or none |
| PluginParser.Matches | src/parser.ts:46-48 | the successive matches on the original text lie after the start and do not overlap |
| PluginParser.MatchesAreLeftmostLongest | src/parser.ts:46-48 | each match is the leftmost-longest block after the end of the previous one |
| PluginParser.NoBlockAfterLastMatch | src/parser.ts:46 | the loop stops only when no block starts after the last match |
| PluginParser.BlockStripsToMiddle | src/parser.ts:37 | a block whose inner text holds no `<` loses exactly its delimiter runs |
| PluginParser.Render | src/parser.ts:49-56 | two entries per piece, Markdown then Plugin, or the YAML error |
| PluginParser.RenderShape | src/parser.ts:49-56 | rendering succeeds exactly when every plugin text parses; entry 2i is the Markdown of piece i and entry 2i+1 is its parsed plugin |
| PluginParser.AsWrittenStep | src/parser.ts:49-57 | each match takes its texts from the shortened stream at the original text's indices, then the stream drops everything before the match end |
| PluginParser.Parse | src/parser.ts:40-61 | the loop returns exactly the rendering of the as-written pieces of the matches |
| PluginParser.ParseCorrected | src/parser.ts:40-61 | the loop with the plugin text and the Markdown text both taken from the original document returns the rendering of the intended pieces: the text before each block, then the block |
| PluginParser.IntendedPluginIsMatch | src/parser.ts:53-56 | with the slice taken from the original document, plugin text i is the text of match i |
| PluginParser.IntendedPiecesCover | src/parser.ts:46-57 | the intended pieces concatenate back to the document up to the end of the last match |
| PluginParser.FirstPieceAgrees | src/parser.ts:53-56 | the first plugin text is the same in both versions |
| PluginParser.TwoBlocksMatches | src/parser.ts:41-48 | two adjacent simple blocks are found as exactly two matches |
| PluginParser.TwoBlocksAsWritten | src/parser.ts:49-57 | as written, the first Markdown text of two adjacent blocks is the whole document and the second plugin text is not the second block |
| PluginParser.TwoBlocksIntended | src/parser.ts:49-57 | corrected, the Markdown texts of two adjacent blocks are empty and the plugin texts are the two blocks |
| Compiler.MergeDefaultsWithPageMetadata | src/compiler/compiler.ts:26-28 | the keys are the union of both key sets; a default wins on a collision; other page keys are kept |
| Compiler.MergeIdempotent | src/compiler/compiler.ts:26-28 | merging the same defaults again changes nothing |
| Compiler.CheckLayoutExists | src/compiler/compiler.ts:30-33 | "Layout not found" exactly when the name is neither a registered layout nor one of the function-valued properties the `{}` table inherits from `Object.prototype` (`toString`, `valueOf`, `constructor`, …) |
| Compiler.LayoutContext | src/compiler/compiler.ts:89-91 | the layout context has exactly the keys `content`, `metadata` and `site`, with the body, the metadata and the site |
| Compiler.CompileDocument | src/compiler/compiler.ts:51-79 | a parser failure is returned as it is; a success had a parsed header and carries the merged metadata; a parsed page fails only through a Handlebars error, and never when it is `.html` |
| Compiler.Dispatch | src/compiler/compiler.ts:68-78 | an `.html` body is returned as it is; an `.md` body is Markdown's rendering of its Handlebars expansion; any other body is its Handlebars expansion; a non-`.html` body fails exactly when Handlebars throws on it, with Handlebars' message |
| Compiler.CompileHeaderless | src/compiler/compiler.ts:62 | a document without a header is refused with "Could not find yaml header" |
| Compiler.HtmlIsVerbatim | src/compiler/compiler.ts:68 | an `.html` page does not depend on Handlebars or Markdown |
| Compiler.OnlyMarkdownRendersMarkdown | src/compiler/compiler.ts:71-76 | a page other than `.md` does not depend on the Markdown renderer |
| Compiler.CompileOfParsed | src/compiler/compiler.ts:62-78 | once the header is parsed, the result is the merged metadata with the body through the extension's pipeline, or that pipeline's template error |
| Compiler.CompileRoundTrip | src/compiler/compiler.ts:51-79 | compiling `"---" + m + "---" + b` gives the defaults merged over YAML's reading of m, with `trim(b)` through the extension's pipeline, or that pipeline's template error |
| Compiler.DefaultLayoutWins | src/compiler/compiler.ts:27 | a layout named in the defaults is the one every page uses |
| Compiler.RenderLayout | src/compiler/compiler.ts:82-92 | "Layout not found" exactly when the page's `metadata.layout` passes no existence check; a registered layout gives Handlebars' expansion of it with `{content, metadata, site}`, failing exactly when Handlebars throws and with Handlebars' message; an inherited name only gives what that method returns |
| Compiler.InheritedLayout | src/compiler/compiler.ts:89-91 | called as a layout, `toString` and `toLocaleString` give `"[object Object]"`; every other inherited method yields no page text |
| Compiler.InheritedToString | src/compiler/compiler.ts:82-92 | a page asking for the unregistered layout `toString` is rendered as `"[object Object]"`, not refused |
| Compiler.RenderRegisteredLayout | src/compiler/compiler.ts:87-91 | a page whose layout was registered last with a template is expanded with that template and the `{content, metadata, site}` context, whatever the name |
| Compiler.Compiler.constructor | src/compiler/compiler.ts:21-24 | the registries start empty |
| Compiler.Compiler.AddPartial | src/compiler/compiler.ts:35-37 | the partial is registered or replaced and the helpers are untouched |
| Compiler.Compiler.AddHelper | src/compiler/compiler.ts:39-41 | the helper is registered or replaced and the partials are untouched |
| Compiler.Compiler.AddLayout | src/compiler/compiler.ts:43-45 | the name maps to the new body, other names are unchanged, and the name then passes the existence check |
| Compiler.Compiler.Compile | src/compiler/compiler.ts:51-79 | a parser failure is returned as it is; a success carries the defaults merged over the page's metadata; a parsed page fails only through a Handlebars error and never when it is `.html` |
| Compiler.Compiler.CompileLayout | src/compiler/compiler.ts:82-92 | "Layout not found" exactly when the name is neither registered nor inherited; a success with a registered layout is that layout's expansion with the site as a plain object |
| Registry.RegisterKeys | src/engine/engine.ts:16 | after registering a list, the names are the old ones and the list's names |
| Registry.RegisterLastWins | src/engine/engine.ts:16 | the last registration under a name wins |
| Registry.RegisterUntouched | src/compiler/compiler.ts:43-45 | a name the list never mentions keeps its entry |
| Registry.RegisterAppend | src/engine/engine.ts:14-15 | registering two lists one after the other is registering their concatenation |
| TemplateEngine.LayoutNames | src/engine/engine.ts:7-16 | the layout table's names are exactly the names of the layout options |
| TemplateEngine.LayoutLastWins | src/engine/engine.ts:16 | a layout name given twice gets its last body |
| TemplateEngine.HelperShadowsPartial | src/engine/engine.ts:14-15 | a helper goes into the partial registry and replaces a partial of the same name |
| TemplateEngine.PartialKept | src/engine/engine.ts:14 | a partial no later partial or helper names keeps its source |
| TemplateEngine.Engine.constructor | src/engine/engine.ts:9-17 | the partials are the partials then the helpers, in list order; no helper is registered; the layouts are the layout options |
| Helpers.NewSite | src/helpers.ts:3-9 | the folder has the given name and path and no files or subfolders |
| FileSystem.ReadFile | src/engine.ts:56 | `readFileSync` succeeds exactly on a readable file and returns its text; otherwise it fails for that path |
| FileSystem.ReadAfterWrite | src/engine.ts:59 | a file reads back as what was last written to it, and other files are unaffected |
| FileSystem.WrittenAppend | src/engine.ts:59 | the paths written by two stretches of the log are those of the first, then those of the second |
| SiteEngine.StagePage | src/engine.ts:55-64 | a staged page's record is named after the file, has path `${dir}/${name}.html`, and that path is the only file written |
| SiteEngine.StagePageCompiles | src/engine.ts:55-64 | a file is staged exactly when it is readable and compiles; the record carries the compiled metadata and the staged file holds the compiled body |
| SiteEngine.ReadContentHeader | src/engine.ts:48 | a staged folder carries the content directory's name and its staging path |
| SiteEngine.ReadItemsFiles | src/engine.ts:50-64 | one record per file child, in order, each with path `${dir}/${name}.html` |
| SiteEngine.ReadItemsSubSites | src/engine.ts:50-54 | one subfolder per directory child, in order, staged under `${dir}/${item.base}` |
| SiteEngine.ReadContentShape | src/engine.ts:47-67 | the folder's name and path, then its records and subfolders, in `contents` order |
| SiteEngine.ReadContentBuilds | src/engine.ts:47-67 | readContent only creates directories and writes files |
| SiteEngine.ReadContentWrites | src/engine.ts:47-67 | on success readContent has written exactly the staged pages, in walk order |
| SiteEngine.LayoutPage | src/engine.ts:72-76 | a page is written exactly when its staged body is readable and its layout renders; an unknown layout gives "Layout not found"; the page holds the layout rendering of the body with the whole site |
| SiteEngine.LayoutPagesWrites | src/engine.ts:71-77 | the page loop writes `${dir}/${name}.html` for each record, in order |
| SiteEngine.WriteSiteBuilds | src/engine.ts:69-83 | writeSite only creates directories and writes files |
| SiteEngine.WriteSiteWrites | src/engine.ts:69-83 | on success a folder's own pages are written before its subfolders', each subfolder under `${dir}/${name}` |
| SiteEngine.WriteSiteReturns | src/engine.ts:82 | writeSite returns its argument |
| SiteEngine.ReadChildrenStops | src/engine.ts:21-25 | the children are read in order up to the first unreadable one, whose error ends the loop |
| SiteEngine.ReadSrcDirIgnores | src/engine.ts:106-107 | top-level items with names that are not reserved change nothing |
| SiteEngine.DefaultsFallThrough | src/engine.ts:88-93 | the defaults item is also loaded as a layouts directory, after the defaults become its YAML value or `{}` |
| SiteEngine.LoadLayoutsLastWins | src/engine.ts:21-25 | a layout child that no later child names is registered with its file's text |
| SiteEngine.DispatchKeeps | src/engine.ts:85-110 | no top-level step removes anything |
| SiteEngine.ReadSrcDirKeeps | src/engine.ts:85-110 | readSrcDir only adds to the filesystem log |
| SiteEngine.GenerateCleanup | src/engine.ts:112-116 | on success the last operation is the removal of `./temp-site`, and nothing was removed before it; on failure nothing is removed |
| SiteEngine.GenerateWrites | src/engine.ts:112-116 | on success generate has written, after readSrcDir, exactly the site's output pages in pre-order under `./site` |
| SiteEngine.Engine.constructor | src/engine.ts:12-19 | a fresh compiler, the site `newSite("", "./")`, defaults `{}` and an empty log |
| SiteEngine.Engine.ReadLayout | src/engine.ts:21-25 | equals the specification: each child's text is registered as a layout, up to the first unreadable child |
| SiteEngine.Engine.ReadPartial | src/engine.ts:27-31 | equals the specification: each child's text is registered as a partial, up to the first unreadable child |
| SiteEngine.Engine.ReadHelper | src/engine.ts:33-37 | each child's module is registered as a helper under its name |
| SiteEngine.Engine.CopyStatic | src/engine.ts:39-41 | the directory is copied to `./site/static` |
| SiteEngine.Engine.RemoveTempDir | src/engine.ts:43-45 | `./temp-site` is removed |
| SiteEngine.Engine.StageFile | src/engine.ts:55-64 | equals the staging of one file child |
| SiteEngine.Engine.ReadContent | src/engine.ts:47-67 | equals the recursive specification of readContent |
| SiteEngine.Engine.WritePages | src/engine.ts:71-77 | equals the specification of writeSite's page loop |
| SiteEngine.Engine.WriteSite | src/engine.ts:69-83 | equals the recursive specification of writeSite, with the whole site as every layout's `site` |
| SiteEngine.Engine.ReadSrcDir | src/engine.ts:85-110 | equals the specification: each top-level item by name, in order, up to the first error |
| SiteEngine.Engine.Generate | src/engine.ts:112-116 | equals readSrcDir, then writeSite of the site it built, then removeTempDir |
| Generator.NewDirStructure | src/generator.ts:52-58 | the node has the given name and path and no files or subdirectories |
| Generator.StructureShape | src/generator.ts:60-77 | every node is named after its directory and has path `""`; files are `${rel}/${name}.html` for the file children in order; subdirectories are the directory children's structures in order, one level deeper |
| Generator.FileEntriesInOrder | src/generator.ts:65-74 | the files entries are the file children's output paths, in order |
| Generator.SubStructuresInOrder | src/generator.ts:65-71 | the subdirectories are the directory children's structures, in order |
| Generator.StructureEntries | src/generator.ts:60-77 | the structure's entries are exactly the output paths of the file leaves, each as often as it occurs |
| Generator.EntryCount | src/generator.ts:61-73 | the structure holds as many entries as the tree has file leaves |
| Generator.TargetsCount | src/generator.ts:79-98 | there is one output path per file leaf |
| Generator.EntriesUnder | src/generator.ts:61-73 | every entry starts with `rel + "/"` and ends with `.html`; from the root every entry starts with `/` |
| Generator.PageContext | src/generator.ts:90-94 | a page's context holds its path and the structure as `siteStructure` |
| Generator.ConsumeWrites | src/generator.ts:79-98 | consumeContents never removes anything; on success it has written one page per file leaf under `${dir}/…/${name}.html`, in walk order; it fails only on an unreadable file |
| Generator.AddLayoutAppends | src/generator.ts:27-32 | addLayout succeeds exactly when every child is readable; it appends one option per child read, in order, named after the child and holding its text |
| Generator.ScanStopsAtFile | src/generator.ts:104-105 | top-level items after the first one that is not a directory are never dispatched |
| Generator.ScanKeepsContent | src/generator.ts:116-118 | without a `content` directory the content item stays the placeholder |
| Generator.GenerateNeedsContent | src/generator.ts:103-128 | without a `content` directory, generate fails reading `contents` of the placeholder, and writes no page |
| Generator.GenerateWrites | src/generator.ts:100-130 | on success `outDir` is the content directory's structure; the paths written are one page per file leaf under `./site`, in walk order; the structure's entries are the same leaf paths relative to the content directory, as a multiset |
| Generator.Generator.constructor | src/generator.ts:16-25 | empty options, the empty root structure, and an empty log |
| Generator.Generator.AddLayout | src/generator.ts:27-32 | equals the specification: one layout option per child, up to the first unreadable child |
| Generator.Generator.AddPartial | src/generator.ts:34-39 | equals the specification: one partial option per child, up to the first unreadable child |
| Generator.Generator.AddHelper | src/generator.ts:41-46 | one helper option per child, in order |
| Generator.Generator.AddStatic | src/generator.ts:48-50 | the directory is copied to `./site/static` |
| Generator.Generator.ConsumeContents | src/generator.ts:79-98 | equals the recursive specification, with every page rendered with the structure in `outDir` |
| Generator.Generator.Generate | src/generator.ts:100-130 | equals the specification: mkdir `./site`, the dispatch loop up to the first file, the engine from the options, `outDir` from the content directory, then consumeContents |

## Left out

- I/O is a map of readable files plus a log of operations. Directories, permissions and the asynchronous completion of `fs.mkdir` and `fs.remove` are not modelled. The log records each call where it is made.
- The directory walk (`src/loader.ts`) is not part of this model; its result is an input.
- YAML, Handlebars and Markdown are uninterpreted functions. YAML and Handlebars may fail with a message. The Markdown renderer is total, since its highlighter catches its own errors.
  - `require(path)(Handlebars, …)` of a helper is represented by the module path.
  - A compiled template is represented by its source text.
- `Date.now()` in the page context of `src/generator.ts:92` is left out; the context holds the path and the structure.
- JavaScript numbers are integers in the `Value` datatype. Floating point is not modelled.
- `Object.assign` copies own enumerable properties only of objects in this model. A string or array as defaults or metadata contributes no keys.
- The syntax-highlighting fallbacks of `src/compiler/compiler.ts:7-19` and the Markdown options belong to the Markdown library and are not modelled.
- The module-level calls (`new Engine().generate()`, `new Generator().generate()`, `console.log(parse(testStr))`) are not modelled; the classes are constructed with their inputs.
- Frontmatter.Parse: stated for the anchored pattern with greedy dash runs. Regular-expression backtracking is captured only through the longest-match lemmas, not as a general regex engine.
- Compiler.RenderLayout: the inherited methods other than `toString` and `toLocaleString` return a boolean, an object or `undefined`, or throw, and what `writeFileSync` then does with that value depends on the Node version. All of them are modelled as one error, `LayoutNotTemplate`.
- Compiler.RenderLayout: `toLocaleString` calls `this.toString()`, so it would run a layout registered under `toString`. A layout registered as `__proto__` would replace the table's prototype. Both are modelled as ordinary names.
- Generator.ConsumeItems: the renderer is a total function. The `engine.render` the source calls is not defined on the engine, so how it could fail is unknown.
- Generator.ConsumeWrites: states which paths are written and in which order, not the rendered text of each page; that text is given by the specification `Generator.ConsumeItems`.

## Findings

| source | as written | input that shows it | evidently intended | confidence | as-written member | corrected member |
|---|---|---|---|---|---|---|
| src/parser.ts:49-52 | the Markdown entry renders `burritoStream.slice(start)`, which is the block itself and everything after it, not the text before the block | `"<<<a>>><<<b>>>"`: the first Markdown text is the whole document, both blocks included, instead of the empty text before the first block | each Markdown entry renders the text between the previous block and this one | not executed | PluginParser.TwoBlocksAsWritten | PluginParser.TwoBlocksIntended |
| src/parser.ts:53-57 | the Plugin entry parses `burritoStream.slice(start, end)`, where start and end are indices in the original `burrito` but `burritoStream` has already lost everything before the previous match's end | `"<<<a>>><<<b>>>"`: the second plugin text is `"<<<b>>>".slice(7)`, the empty string, instead of `"<<<b>>>"` | each Plugin entry parses the text of its own block, the indices taken relative to the same string they index | not executed | PluginParser.TwoBlocksAsWritten | PluginParser.IntendedPluginIsMatch |

In the table, `PluginParser.Parse` models the loop as written. `PluginParser.ParseCorrected` corrects both rows and takes both texts from the original document. Its Markdown entry for a block is the text between the previous block and this one. `PluginParser.IntendedPiecesCover` proves that these texts and the blocks put back together give the document up to the last block. `PluginParser.TwoBlocksIntended` gives the two-block case.
