# minifiable-keywords in Dafny

A model of vite-plugin-minifiable-keywords. Application code imports a virtual
module, `import * as K from 'virtual:keywords'`, and uses its members as
opaque keys: `K.foo` as a value, `K.foo` as a type. The plugin scans the
project for the member names used through that namespace. It serves
`virtual:keywords` as one `Symbol` export per collected name. It writes a
declaration file, `.keywords/types.d.ts`, whose `collected` type is the union
of those names. In watch mode it adds the names of a saved file and, when a
name is new, invalidates the virtual module and rewrites the declaration
file.

The modules follow the repository's files:

- `MinifiableKeywords` models the library's extractor `extractKeywords`
  (packages/minifiable-keywords/src/index.ts). It is a loop-based
  `ExtractKeywords` method proved against `KeywordsOf`, a specification
  function over the pre-order walk of the syntax tree. The module also holds
  the project scan `collectKeywordsFromFiles`, proved against `Scan`, the
  union of the per-file sets. src/shared.ts holds a copy of both,
  character for character (lines 19-82 and 121-129), so they are modelled
  once.
- `KeywordsText` models the two generated texts. The first is the module
  body `generateModuleCode`; the root plugin's private copy (src/index.ts
  lines 24-33) builds the same text. The second is the declaration file of
  `generateTypesFile`. Each text comes with a decoder, and the round trip
  states what the text means. `collectKeywordsAndGenerateTypes` returns the
  scanned set together with a record of the file write.
- `Shared` fixes the plugin name that src/shared.ts writes into the
  declaration file.
- `KeywordSet` models a JavaScript `Set<string>` as an insertion-ordered
  sequence without duplicates. `[...set]` yields that order.
- `BabelAst` models the syntax tree as a datatype and the parser as a
  function from text to an optional tree, `None` when Babel throws.
- `VitePlugin` models the root plugin (src/index.ts) as a class. Its hooks
  `configResolved`, `buildStart`, `resolveId`, `load` and `hotUpdate` are
  methods and functions over the closure's state. A hook that reads a
  property of the still-undefined `config` throws a `TypeError`; the model
  returns that as `threw` or as `Outcome.TypeError`.
- `PackageVitePlugin` models the Vite adapter in
  packages/vite-plugin-minifiable-keywords/src/index.ts. It calls the
  library positionally, as written, so the model keeps two of its
  consequences:
  - `buildStart` passes the array `[outDir, cacheDir]` as the `pluginName`
    parameter, so the header of the declaration file references
    `<outDir>,<cacheDir>/global`.
  - `hotUpdate` omits `pluginName`, so it references `undefined/global`.

  The adapter imports `createPrefixedLogger` and `splitQuery` from a
  version of the library other than the one shown. `splitQuery` is taken to
  be the root plugin's `id.split('?')`, read at index 0.
  `collectKeywordsAndGenerateTypes` does not forward `ignoredDirs`; the
  scan's ignore patterns are not modelled either way.

Three facts about the code shape the model:

- The extractor reads only namespace imports. Named and default specifiers
  contribute nothing, and a file that has no namespace import of the virtual
  module yields no names.
- Only the first namespace import of the virtual module counts, because the
  first walk stops there.
- A failed `readFile` is not caught. It rejects the whole scan; it does not
  contribute an empty set.

## Model

| member | source | states |
|---|---|---|
| KeywordSet.Add | packages/minifiable-keywords/src/index.ts:70 | `Set.add`: the members are the old ones plus the name; the old order stays a prefix; the set grows exactly when the name is new; no name appears twice |
| KeywordSet.AddAll | packages/minifiable-keywords/src/index.ts:130-132 | adding every name of a set in turn: the members are the union, the old set stays a prefix, no duplicates |
| KeywordSet.AddEach | src/index.ts:100-102 | the `for … of` loop of `add` calls computes `AddAll` |
| KeywordSet.AddAllGrows | src/index.ts:99-104 | the size grows if and only if some added name was not yet a member (`newKeywordsAdded`) |
| KeywordSet.AddAllAbsorbs | src/index.ts:97 | adding names that are all members already leaves the set unchanged, so the early return for an empty file set changes nothing |
| KeywordSet.AddAllToEmpty | src/index.ts:55-63 | clearing the set and re-adding a duplicate-free set yields that set, in its order |
| KeywordSet.UniteAll | packages/minifiable-keywords/src/index.ts:126-134 | the union of the per-file sets holds no name twice |
| KeywordSet.UniteAllSound | packages/minifiable-keywords/src/index.ts:126-134 | every name of the union comes from some file's set |
| KeywordSet.UniteAllComplete | packages/minifiable-keywords/src/index.ts:126-134 | every name of every file's set is in the union |
| KeywordSet.UniteAllMembers | packages/minifiable-keywords/src/index.ts:126-134 | a name is in the union if and only if some file yields it |
| MinifiableKeywords.FirstNamespace | packages/minifiable-keywords/src/index.ts:44-46 | `specifiers.find` finds a binding exactly when some specifier is a namespace specifier, and the binding is the local name of the first one |
| MinifiableKeywords.ImportBinding | packages/minifiable-keywords/src/index.ts:40-50 | a node establishes a binding exactly when it is an import of `virtual:keywords` with a namespace specifier |
| MinifiableKeywords.NamespaceBinding | packages/minifiable-keywords/src/index.ts:37-53 | the binding the first walk keeps is that of some visited node, and no node before it establishes one |
| MinifiableKeywords.NamespaceBindingExists | packages/minifiable-keywords/src/index.ts:37-53 | the first walk finds a namespace if and only if some visited node is a namespace import of `virtual:keywords` |
| MinifiableKeywords.FirstNamespaceImportWins | packages/minifiable-keywords/src/index.ts:47-50 | the walk stops at the first such import: its binding is the namespace, whatever imports follow |
| MinifiableKeywords.FindKeywordNamespace | packages/minifiable-keywords/src/index.ts:35-53 | the first walk, a loop with `stop()`, returns `NamespaceBinding` of the visited nodes |
| MinifiableKeywords.CollectReferences | packages/minifiable-keywords/src/index.ts:59-82 | the names the second walk adds form a set: no name twice |
| MinifiableKeywords.Reference | packages/minifiable-keywords/src/index.ts:63-80 | a computed member access never contributes; a contributed name is the property of a member access on the namespace identifier, or the right side of a qualified name whose left side is that identifier |
| MinifiableKeywords.CollectReferencesMembers | packages/minifiable-keywords/src/index.ts:63-80 | a name is collected if and only if some visited node is a non-computed `ns.name` member access or an `ns.name` qualified type name |
| MinifiableKeywords.CollectReferencesAppend | packages/minifiable-keywords/src/index.ts:59-82 | the names collected from two runs of nodes are those of the first, then the new ones of the second |
| MinifiableKeywords.CollectNamespaceReferences | packages/minifiable-keywords/src/index.ts:59-82 | the second walk, a loop of two tests per node, returns `CollectReferences` of the visited nodes, in first-use order |
| MinifiableKeywords.KeywordsOf | packages/minifiable-keywords/src/index.ts:22-85 | the extracted names form a set, and a file the parser rejects yields the empty set |
| MinifiableKeywords.KeywordsOfMembers | packages/minifiable-keywords/src/index.ts:35-82 | a name is extracted if and only if the file imports the virtual module as a namespace and uses the name through that namespace's first binding |
| MinifiableKeywords.NoNamespaceImportNoKeywords | packages/minifiable-keywords/src/index.ts:55-57 | a file without a namespace import of the virtual module yields the empty set |
| MinifiableKeywords.ExtractKeywords | packages/minifiable-keywords/src/index.ts:22-85 | `extractKeywords(code)` (parse, then both walks) returns `KeywordsOf` of the parse, and the empty set when parsing throws |
| MinifiableKeywords.ConstDeclarationReferences | packages/minifiable-keywords/src/index.ts:63-71 | `const a = K.foo` contributes exactly `foo` |
| MinifiableKeywords.TypeAliasReferences | packages/minifiable-keywords/src/index.ts:73-80 | `type T = K.baz` contributes exactly `baz` |
| MinifiableKeywords.SampleFileKeywords | packages/minifiable-keywords/src/index.test.ts:6-14 | the file with `import * as K`, `K.foo`, `K.bar` and `type T = K.baz` yields exactly `foo`, `bar`, `baz` |
| MinifiableKeywords.PerFile | packages/minifiable-keywords/src/index.ts:127-129 | the per-file extraction yields exactly as many sets as there are files |
| MinifiableKeywords.Scan | packages/minifiable-keywords/src/index.ts:126-134 | the collected names form a set, and an empty project collects none |
| MinifiableKeywords.ScanSingle | packages/minifiable-keywords/src/index.ts:126-134 | scanning one file collects exactly that file's names, in their order |
| MinifiableKeywords.CollectKeywordsFromFiles | packages/minifiable-keywords/src/index.ts:126-134 | the scan loop returns `Scan`, the union of every file's extracted names |
| MinifiableKeywords.ScanMembers | packages/minifiable-keywords/src/index.ts:126-134 | a name is collected if and only if some scanned file yields it |
| MinifiableKeywords.ScanContainsEach | packages/minifiable-keywords/src/index.ts:127-132 | every name of every file is collected |
| MinifiableKeywords.ScanOrderIndependent | packages/minifiable-keywords/src/index.ts:126-134 | the collected names do not depend on the order in which the reads complete |
| KeywordsText.GenerateModuleCode | packages/minifiable-keywords/src/index.ts:158-169 | the module is empty exactly when the set is, and otherwise ends with a newline |
| KeywordsText.ExportLineRoundTrip | packages/minifiable-keywords/src/index.ts:164-165 | one export line reads back as the name bound to a symbol, described by the name exactly in development |
| KeywordsText.ModuleCodeRoundTrip | packages/minifiable-keywords/src/index.ts:158-169 | the module reads back line by line as one export per collected name, in set order, with a description exactly when `isDev` |
| KeywordsText.ModuleCodeContains | packages/minifiable-keywords/src/index.test.ts:27-45 | the module contains the whole export line of every collected name, with or without the description |
| KeywordsText.CollectedType | packages/minifiable-keywords/src/index.ts:94-96 | the union text is empty exactly for the empty set, and otherwise starts with a quote |
| KeywordsText.UnionRoundTrip | packages/minifiable-keywords/src/index.ts:94-96 | the `' \| '`-joined quoted names read back as the set, in order |
| KeywordsText.TypesContent | packages/minifiable-keywords/src/index.ts:97-103 | the template opens with a newline and ends with the closing brace |
| KeywordsText.TypesFileText | packages/minifiable-keywords/src/index.ts:94-106 | the written file is the template without its leading newline (all `trim()` removes), then one newline after the closing brace |
| KeywordsText.TypesFileRoundTrip | packages/minifiable-keywords/src/index.ts:94-106 | the written file declares `collected` as exactly the set, in order, or as `never` for the empty set |
| KeywordsText.TypesWrite.Text | packages/minifiable-keywords/src/index.ts:94-106 | the text a `generateTypesFile` call writes has the header naming the plugin, the type and the closing lines, and declares exactly its set |
| KeywordsText.CollectKeywordsAndGenerateTypes | packages/minifiable-keywords/src/index.ts:143-156 | returns the scanned set and writes the declaration file for exactly that set under the given plugin name |
| Shared.TypesFileText | src/shared.ts:84-103 | the root plugin's declaration file is the header naming `vite-plugin-minifiable-keywords`, the union of the names or `never`, and the closing lines |
| Shared.TypesFileDeclares | src/shared.ts:84-103 | the root plugin's declaration file declares exactly the set, in order |
| JsString.Trim | packages/minifiable-keywords/src/index.ts:106 | `trim()`: the result is an infix of the text with only whitespace before and after it, and it starts and ends with a non-whitespace character; so it is empty for an all-whitespace text and leaves a text that already starts and ends that way unchanged |
| JsString.Includes | src/index.ts:90 | `includes`: true exactly when the part occurs in the text at some index |
| VitePlugin.SplitQuery | src/index.ts:14 | `split('?')[0]`: a prefix of the id without `?`, ending where the id's first `?` stands |
| VitePlugin.SplitQueryOf | src/index.ts:14 | the part before the first `?` of `base?query` is `base`, and an id without `?` is its own part |
| VitePlugin.ResolveId | src/index.ts:67-75 | resolves if and only if there is an importer and the id without its query is `virtual:keywords`, and then to `\0virtual:keywords`; the adapter's `resolveId` (packages/vite-plugin-minifiable-keywords/src/index.ts lines 48-56) is the same hook |
| VitePlugin.ResolveIdIgnoresQuery | src/index.ts:71-74 | `virtual:keywords` resolves with any query |
| VitePlugin.ResolvedIdIsLoaded | src/index.ts:67-82 | the resolved id is the one `load` serves, and it does not resolve again |
| VitePlugin.BaseName | src/index.ts:87 | the last path segment: a suffix of the path without `/`, preceded by a `/` unless it is the whole path |
| VitePlugin.ExtOfBase | src/index.ts:87 | the extension of one segment: empty, or a suffix of it that is a `.` then no further `.`; non-empty exactly when the segment is not `..` and has a `.` after its first character |
| VitePlugin.ExtName | src/index.ts:87 | `path.extname`: empty, or a `.` then no further `.` or `/`; a suffix of the path and of its last segment; non-empty exactly when that segment is not `..` and has a `.` after its first character, so it runs from the segment's last `.` to the end |
| VitePlugin.ExtNameOf | src/index.ts:87 | `dir/stem.ext` has extension `.ext` |
| VitePlugin.DotFileHasNoExt | src/index.ts:87 | `dir/.name` has no extension |
| VitePlugin.ParentSegmentHasNoExt | src/index.ts:87 | `dir/..` has no extension |
| VitePlugin.IsWatchedScript | src/index.ts:85-93 | a file that passes the filter comes from a create or update event and ends in one of the four script extensions |
| VitePlugin.WatchedScript | src/index.ts:85-93 | a created or changed `.js`, `.ts`, `.jsx` or `.tsx` file outside hidden directories passes the filter |
| VitePlugin.HiddenPathIgnored | src/index.ts:88-93 | a path containing `/.` never passes the filter |
| VitePlugin.Plugin.constructor | src/index.ts:21-22 | a new plugin has an empty set, no configuration, and has written and invalidated nothing |
| VitePlugin.Plugin.ConfigResolved | src/index.ts:50-52 | stores the configuration and changes nothing else |
| VitePlugin.Plugin.BuildStart | src/index.ts:54-65 | empties the set; without a configuration it then throws; otherwise the set becomes the project scan and the declaration file is written once, for it |
| VitePlugin.Plugin.TypesFile | src/index.ts:64 | the file last written declares exactly the current set |
| VitePlugin.Plugin.Load | src/index.ts:77-82 | declines every other id; throws for the virtual id before configuration; otherwise serves the module that reads back as the set, described unless the mode is `production` |
| VitePlugin.LoadIgnoresQuery | src/index.ts:77-81 | `load` answers the resolved id with a query as it answers the bare id |
| VitePlugin.Plugin.HotUpdate | src/index.ts:84-112 | an ignored file changes nothing; a watched file's names join the set, it grows iff one is new, and then the module is invalidated once and the declaration file rewritten once for the new set, which throws without a configuration; when no name is new, nothing is invalidated or rewritten |
| VitePlugin.Plugin.AddFileKeywords | src/index.ts:97-111 | the names join the set; exactly when one is new, one invalidation and, with a configuration, one rewrite for the new set, and without one a throw; otherwise nothing else changes |
| PackageVitePlugin.Plugin.constructor | packages/vite-plugin-minifiable-keywords/src/index.ts:16-19 | a new plugin has no set, no configuration, and has written and invalidated nothing |
| PackageVitePlugin.Plugin.ConfigResolved | packages/vite-plugin-minifiable-keywords/src/index.ts:35-38 | stores the configuration and changes nothing else |
| PackageVitePlugin.BuildPluginName | packages/vite-plugin-minifiable-keywords/src/index.ts:41-45 | the array `[outDir, cacheDir]` rendered into the `pluginName` slot of the template (packages/minifiable-keywords/src/index.ts:98): the two directories joined by `,`, which splitting at the first `,` gives back when the output directory holds none |
| PackageVitePlugin.Plugin.BuildStart | packages/vite-plugin-minifiable-keywords/src/index.ts:40-46 | throws without a configuration and changes nothing; otherwise the set becomes the scan and the declaration file is written once, for it, under the plugin name `<outDir>,<cacheDir>` |
| PackageVitePlugin.Plugin.TypesFile | packages/vite-plugin-minifiable-keywords/src/index.ts:40-46 | the file last written declares exactly the current set |
| PackageVitePlugin.Plugin.Load | packages/vite-plugin-minifiable-keywords/src/index.ts:58-64 | declines every other id; throws for the virtual id before configuration or before a scan; otherwise serves the module for the set, described only in `development` mode |
| PackageVitePlugin.Plugin.HotUpdate | packages/vite-plugin-minifiable-keywords/src/index.ts:66-94 | an ignored file changes nothing; a watched file's names are added as `AddFileKeywords` states |
| PackageVitePlugin.Plugin.AddFileKeywords | packages/vite-plugin-minifiable-keywords/src/index.ts:79-93 | no names: nothing changes; no set yet: throws; otherwise the names join the set, and exactly when it grew the module is invalidated once and the declaration file rewritten once under the plugin name `undefined` |
| PackageVitePlugin.Plugin.MergeKeywords | packages/vite-plugin-minifiable-keywords/src/index.ts:81-93 | on an existing set: the names join it; it grows iff one is new, and exactly then one invalidation and one rewrite under the plugin name `undefined` |
| PackageVitePlugin.Plugin.RewriteAfterGrowth | packages/vite-plugin-minifiable-keywords/src/index.ts:87-93 | after a growth: one more invalidation, one more write, and the last write is the grown set under the plugin name `undefined`; the set and the configuration stay as they were |

## Left out

- Babel's parser and `traverse` are not part of this model. Parsing is a parameter from text to an optional tree. Only the node kinds the extractor tests are distinguished, and the walk is a pre-order over the children as the tree lists them.
- The file system is not modelled: `globby`/`tinyglobby`, the ignore patterns, `.gitignore`, `mkdir` and `writeFile`. A scan takes the contents of the matched files in the order their reads complete. A write is recorded as its text, with no path and no `root`.
- Failing reads and writes are not modelled: a rejected `readFile`, `mkdir` or `writeFile` ends the hook in the source.
- Concurrency is not modelled: `Promise.all` and other hooks running during an `await`. Each file's names join the set in one step.
- Vite's module graph is not modelled. An invalidation is counted as a request, without `getModuleById`, a missing module or `lastHMRTimestamp`.
- Logging is left out: `logger.info`, `createPrefixedLogger`, the `name` and `__OPTIONS__` fields of the plugin object.
- The CLIs, the Rollup adapters, the build configurations and `global.d.ts` are not part of this model.
- The uniqueness of each `Symbol` and the effect of the `/* @__PURE__ */` annotation are not modelled; the module is modelled as text.
- VitePlugin.ExtName: models `path.extname` only for `/`-separated paths that do not end in `/` (Node ignores trailing separators).
- KeywordsText.ExportLineRoundTrip: stated only for names without a space, a quote or a newline, because a name with one of them cannot be read back from the line unambiguously. Every identifier name the extractor yields meets it.
- KeywordsText.ModuleCodeRoundTrip: stated only for names without a space, a quote or a newline, for the reason given for ExportLineRoundTrip.
- KeywordsText.UnionRoundTrip: stated only for names without a quote, because a quote inside a name would end its quoted form early.
- KeywordsText.TypesFileRoundTrip: stated only for names without a space, a quote or a newline, for the same reason.
- KeywordsText.TypesWrite.Text: the declared set is stated only for names without a space, a quote or a newline; the exact text is stated for all names.
- Shared.TypesFileDeclares: stated only for names without a space, a quote or a newline; the exact text is stated for all names by Shared.TypesFileText.
- VitePlugin.Plugin.TypesFile: the declared set is stated only when every collected name has no space, quote or newline, as the extractor's identifier names do.
- VitePlugin.Plugin.Load: the decoded module is stated only when every collected name has no space, quote or newline; which ids are declined, when it throws and when the module is empty are stated for all names.
- PackageVitePlugin.Plugin.TypesFile: the declared set is stated only when every collected name has no space, quote or newline.
- PackageVitePlugin.Plugin.Load: the decoded module is stated only when every collected name has no space, quote or newline; which ids are declined, when it throws and when the module is empty are stated for all names.
- The extractor's results are not proved to be identifier names, because the tree's identifiers are arbitrary strings.
