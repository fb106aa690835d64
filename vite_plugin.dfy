/**
 * `src/index.ts`, the root Vite plugin. It owns the set of collected names:
 * `buildStart` refills it from a project scan, `hotUpdate` adds the names of a
 * saved file, and `resolveId` and `load` serve the virtual module built from it.
 */
module VitePlugin {
  import opened Wrappers
  import opened JsString
  import opened KeywordSet
  import opened BabelAst
  import opened MinifiableKeywords
  import opened KeywordsText
  import Shared

  /** The parts of Vite's resolved configuration the hooks read. */
  datatype Config = Config(mode: string, outDir: string, cacheDir: string)

  /** The kind of change a hot update reports. */
  datatype EventType = Create | Update | Delete

  /**
   * How a hook that returns a value ends: it returns nothing (Vite asks the
   * next plugin), it returns a value, or it throws the `TypeError` of reading a
   * property of `undefined`.
   */
  datatype Outcome<T> = Declined | Handled(value: T) | TypeError

  // ---------------------------------------------------------------------------
  // Routing the virtual module
  // ---------------------------------------------------------------------------

  /** `splitQuery(id)[0]`: the id up to its first `?`. */
  function SplitQuery(id: string): (r: string)
    ensures r <= id && '?' !in r
    ensures |r| < |id| ==> id[|r|] == '?'
  {
    Before(id, '?')
  }

  /** An id without `?` is its own base, and any query after it is dropped. */
  lemma SplitQueryOf(base: string, query: string)
    requires '?' !in base
    ensures SplitQuery(base) == base
    ensures SplitQuery(base + "?" + query) == base
  {
    assert base + "?" + query == base + ['?'] + query;
    SplitAtFirst(base, '?', query);
  }

  /**
   * `resolveId(source, importer)`: only an import of the virtual id, with or
   * without a query, from a module that has an importer resolves, and it
   * resolves to the `\0`-prefixed id.
   */
  function ResolveId(source: string, importer: Option<string>): (r: Option<string>)
    ensures r.Some? <==> importer.Some? && importer.value != "" && SplitQuery(source) == VIRTUAL_MODULE_ID
    ensures r.Some? ==> r.value == RESOLVED_VIRTUAL_MODULE_ID
  {
    if importer.None? || importer.value == "" then None
    else if SplitQuery(source) == VIRTUAL_MODULE_ID then Some(RESOLVED_VIRTUAL_MODULE_ID)
    else None
  }

  /** An import of the virtual id resolves whatever query it carries. */
  lemma ResolveIdIgnoresQuery(query: string, importer: string)
    requires importer != ""
    ensures ResolveId(VIRTUAL_MODULE_ID, Some(importer)) == Some(RESOLVED_VIRTUAL_MODULE_ID)
    ensures ResolveId(VIRTUAL_MODULE_ID + "?" + query, Some(importer)) == Some(RESOLVED_VIRTUAL_MODULE_ID)
  {
    assert '?' !in VIRTUAL_MODULE_ID;
    SplitQueryOf(VIRTUAL_MODULE_ID, query);
  }

  /**
   * The id `resolveId` hands out is the one `load` answers for, and resolving
   * it again does not resolve.
   */
  lemma ResolvedIdIsLoaded(source: string, importer: Option<string>)
    requires ResolveId(source, importer).Some?
    ensures SplitQuery(ResolveId(source, importer).value) == RESOLVED_VIRTUAL_MODULE_ID
    ensures ResolveId(ResolveId(source, importer).value, importer) == None
  {
    assert '?' !in RESOLVED_VIRTUAL_MODULE_ID;
    SplitQueryOf(RESOLVED_VIRTUAL_MODULE_ID, "");
    assert |RESOLVED_VIRTUAL_MODULE_ID| != |VIRTUAL_MODULE_ID|;
  }

  // ---------------------------------------------------------------------------
  // Which changed files a hot update reads
  // ---------------------------------------------------------------------------

  const SCRIPT_EXTENSIONS: seq<string> := [".js", ".ts", ".jsx", ".tsx"]

  /** The last segment of a `/`-separated path: the suffix after its last `/`. */
  function BaseName(file: string): (r: string)
    ensures '/' !in r && EndsWith(file, r)
    ensures |r| < |file| ==> file[|file| - |r| - 1] == '/'
  {
    file[LastIndexOf(file, '/') + 1..]
  }

  /** The extension of one path segment `base`, as `path.extname` takes it. */
  function ExtOfBase(base: string): (r: string)
    requires '/' !in base
    ensures r == [] || (r[0] == '.' && '.' !in r[1..] && '/' !in r)
    ensures EndsWith(base, r)
    ensures r != [] <==> base != ".." && exists i :: 0 < i < |base| && base[i] == '.'
  {
    var dot := LastIndexOf(base, '.');
    if dot <= 0 || base == ".." then
      LastIndexOfIsLast(base, '.');
      ""
    else
      assert base[dot..][1..] == base[dot + 1..];
      assert forall x :: x in base[dot..] ==> x in base;
      assert base[dot] == '.';
      base[dot..]
  }

  /**
   * `path.extname(file)` for a path that does not end in `/`: from the last
   * `.` of the last segment to the end, or empty when that segment has no `.`,
   * starts with its only one, or is `..`.
   */
  function ExtName(file: string): (r: string)
    ensures r == [] || (r[0] == '.' && '.' !in r[1..] && '/' !in r)
    ensures EndsWith(file, r)
    ensures var base := BaseName(file);
      r != [] <==> base != ".." && exists i :: 0 < i < |base| && base[i] == '.'
    ensures EndsWith(BaseName(file), r)
  {
    var base := BaseName(file);
    var r := ExtOfBase(base);
    EndsWithTrans(file, base, r);
    r
  }

  /** The last segment of `dir/base` is `base` when `base` holds no `/`. */
  lemma BaseNameAfterSlash(dir: string, base: string)
    requires '/' !in base
    ensures BaseName(dir + "/" + base) == base
  {
    var file := dir + "/" + base;
    assert file == dir + ['/'] + base;
    LastIndexOfAt(dir, '/', base);
  }

  /** The extension of `dir/stem.ext` is `.ext`. */
  lemma ExtNameOf(dir: string, stem: string, ext: string)
    requires '/' !in stem && stem != []
    requires ext != [] && ext[0] == '.' && '.' !in ext[1..] && '/' !in ext
    requires stem + ext != ".."
    ensures ExtName(dir + "/" + stem + ext) == ext
  {
    var base := stem + ext;
    assert '/' !in base by {
      assert forall x :: x in base ==> x in stem || x in ext;
    }
    assert dir + "/" + stem + ext == dir + "/" + base;
    BaseNameAfterSlash(dir, base);
    assert base == stem + ['.'] + ext[1..];
    LastIndexOfAt(stem, '.', ext[1..]);
    assert base[|stem|..] == ext;
  }

  /** A dot file such as `dir/.eslintrc` has no extension. */
  lemma DotFileHasNoExt(dir: string, name: string)
    requires '/' !in name && '.' !in name
    ensures ExtName(dir + "/." + name) == ""
  {
    var base := "." + name;
    assert dir + "/." + name == dir + "/" + base;
    BaseNameAfterSlash(dir, base);
    assert base == [] + ['.'] + name;
    LastIndexOfAt([], '.', name);
  }

  /** The parent-directory segment `dir/..` has no extension. */
  lemma ParentSegmentHasNoExt(dir: string)
    ensures ExtName(dir + "/..") == ""
  {
    assert dir + "/.." == dir + "/" + "..";
    BaseNameAfterSlash(dir, "..");
  }

  /**
   * The filter at the top of `hotUpdate`: a created or updated JavaScript or
   * TypeScript file outside hidden directories.
   */
  function IsWatchedScript(event: EventType, file: string): (r: bool)
    ensures r ==> event != Delete
    ensures r ==> exists ext :: ext in SCRIPT_EXTENSIONS && EndsWith(file, ext)
  {
    event != Delete && ExtName(file) in SCRIPT_EXTENSIONS && !Includes(file, "/.")
  }

  /** A script in a visible directory is read on creation and on change. */
  lemma WatchedScript(event: EventType, dir: string, stem: string, ext: string)
    requires event != Delete
    requires ext in SCRIPT_EXTENSIONS && '/' !in stem && stem != []
    requires !Includes(dir + "/" + stem + ext, "/.")
    ensures IsWatchedScript(event, dir + "/" + stem + ext)
  {
    assert |ext| >= 3;
    ExtNameOf(dir, stem, ext);
  }

  /** A path through a hidden directory, or naming a hidden file, is never read. */
  lemma HiddenPathIgnored(event: EventType, dir: string, rest: string)
    ensures !IsWatchedScript(event, dir + "/." + rest)
  {
    assert dir + "/." + rest == dir + "/." + rest;
    IncludesPart(dir, "/.", rest);
  }

  // ---------------------------------------------------------------------------
  // The plugin instance
  // ---------------------------------------------------------------------------

  /** The state one call of `minifiableKeywordsPlugin()` closes over. */
  class Plugin {
    /** The parser `extractKeywords` runs. */
    const parse: Parser
    /** `collectedKeywords`, in insertion order. */
    var collectedKeywords: seq<string>
    /** `config`, once `configResolved` has run. */
    var config: Option<Config>
    /**
     * The set `.keywords/types.d.ts` was last generated from, if the plugin
     * wrote it; the text written is `TypesFile()`.
     */
    var typesWrittenFrom: Option<seq<string>>
    /** How often the plugin called `generateTypesFile`. */
    ghost var typesWrites: nat
    /** How often the plugin had the module graph invalidate the virtual module. */
    ghost var invalidations: nat

    /** The set holds no name twice, and the declaration file written declares exactly the set. */
    ghost predicate Valid()
      reads this
    {
      NoDup(collectedKeywords)
      && (typesWrittenFrom.Some? ==> config.Some? && typesWrittenFrom.value == collectedKeywords)
    }

    constructor(parse: Parser)
      ensures Valid()
      ensures this.parse == parse && collectedKeywords == [] && config == None
      ensures typesWrittenFrom == None && typesWrites == 0 && invalidations == 0
    {
      this.parse := parse;
      collectedKeywords := [];
      config := None;
      typesWrittenFrom := None;
      typesWrites := 0;
      invalidations := 0;
    }

    /** `configResolved(resolvedConfig)`. */
    method ConfigResolved(resolvedConfig: Config)
      requires Valid()
      modifies this
      ensures Valid()
      ensures config == Some(resolvedConfig)
      ensures collectedKeywords == old(collectedKeywords) && typesWrittenFrom == old(typesWrittenFrom)
      ensures typesWrites == old(typesWrites) && invalidations == old(invalidations)
    {
      config := Some(resolvedConfig);
    }

    /**
     * `buildStart()`: empty the set, scan the project (the contents of its
     * files, in the order their reads complete), add every name found and
     * write the declaration file. Without a configuration it throws once the
     * set is empty.
     */
    method BuildStart(files: seq<string>) returns (threw: bool)
      requires Valid()
      modifies this
      ensures Valid()
      ensures threw <==> config.None?
      ensures collectedKeywords == if threw then [] else Scan(parse, files)
      ensures typesWrittenFrom == if threw then old(typesWrittenFrom) else Some(collectedKeywords)
      ensures typesWrites == old(typesWrites) + if threw then 0 else 1
      ensures config == old(config) && invalidations == old(invalidations)
    {
      collectedKeywords := [];
      if config.None? {
        return true;
      }
      var scanned := CollectKeywordsFromFiles(parse, files);
      AddAllToEmpty(scanned);
      var added := AddEach([], scanned);
      assert added == scanned;
      collectedKeywords := added;
      typesWrittenFrom := Some(collectedKeywords);
      typesWrites := typesWrites + 1;
      threw := false;
    }

    /**
     * The content of `.keywords/types.d.ts` as the plugin last wrote it: it
     * declares exactly the collected names.
     */
    function TypesFile(): (r: Option<string>)
      reads this
      requires Valid()
      ensures r.Some? <==> typesWrittenFrom.Some?
      ensures r.Some? && (forall k :: k in collectedKeywords ==> PlainName(k)) ==>
                DeclaredKeywords(r.value, Shared.PLUGIN_NAME) == Some(collectedKeywords)
    {
      if typesWrittenFrom.None? then None
      else
        var keys := typesWrittenFrom.value;
        assert (forall k :: k in keys ==> PlainName(k)) ==>
                 DeclaredKeywords(Shared.TypesFileText(keys), Shared.PLUGIN_NAME) == Some(keys) by {
          if forall k :: k in keys ==> PlainName(k) {
            Shared.TypesFileDeclares(keys);
          }
        }
        Some(Shared.TypesFileText(keys))
    }

    /**
     * `load(id)`: the module body for the virtual id, with or without a query,
     * and nothing for any other id. Outside production mode every symbol is
     * described by its name.
     */
    function Load(id: string): (r: Outcome<string>)
      reads this
      ensures r.Declined? <==> SplitQuery(id) != RESOLVED_VIRTUAL_MODULE_ID
      ensures r.TypeError? <==> SplitQuery(id) == RESOLVED_VIRTUAL_MODULE_ID && config.None?
      ensures r.Handled? ==> (r.value == "" <==> collectedKeywords == [])
      ensures r.Handled? && (forall k :: k in collectedKeywords ==> PlainName(k)) ==>
                DecodeModule(r.value) == Some(ExportsOf(collectedKeywords, config.value.mode != "production"))
    {
      if SplitQuery(id) != RESOLVED_VIRTUAL_MODULE_ID then Declined
      else if config.None? then TypeError
      else
        var isDev := config.value.mode != "production";
        var code := GenerateModuleCode(collectedKeywords, isDev);
        assert (forall k :: k in collectedKeywords ==> PlainName(k)) ==>
                 DecodeModule(code) == Some(ExportsOf(collectedKeywords, isDev)) by {
          if forall k :: k in collectedKeywords ==> PlainName(k) {
            ModuleCodeRoundTrip(collectedKeywords, isDev);
          }
        }
        Handled(code)
    }

    /**
     * `hotUpdate({ type, file, read })`: the names of a watched file join the
     * set; when one of them is new, the virtual module is invalidated and the
     * declaration file rewritten. Without a configuration the rewrite throws,
     * after the set has grown and the module been invalidated.
     */
    method HotUpdate(event: EventType, file: string, code: string) returns (threw: bool)
      requires Valid()
      modifies this
      ensures Valid()
      ensures collectedKeywords == if IsWatchedScript(event, file)
                                   then AddAll(old(collectedKeywords), KeywordsOf(parse(code)))
                                   else old(collectedKeywords)
      ensures old(collectedKeywords) <= collectedKeywords
      ensures |collectedKeywords| > |old(collectedKeywords)| <==>
                IsWatchedScript(event, file) && exists k :: k in KeywordsOf(parse(code)) && k !in old(collectedKeywords)
      ensures invalidations == old(invalidations) + if |collectedKeywords| > |old(collectedKeywords)| then 1 else 0
      ensures threw <==> |collectedKeywords| > |old(collectedKeywords)| && config.None?
      ensures typesWrittenFrom == if |collectedKeywords| > |old(collectedKeywords)| && config.Some?
                                  then Some(collectedKeywords)
                                  else old(typesWrittenFrom)
      ensures typesWrites == old(typesWrites) + if |collectedKeywords| > |old(collectedKeywords)| && config.Some? then 1 else 0
      ensures config == old(config)
    {
      threw := false;
      if IsWatchedScript(event, file) {
        var keywordsInFile := ExtractKeywords(parse, code);
        threw := AddFileKeywords(keywordsInFile);
      }
    }

    /**
     * The rest of `hotUpdate` once the file's names are known: nothing for
     * none; otherwise the names join the set, and when one is new the module
     * is invalidated and the declaration file rewritten.
     */
    method AddFileKeywords(keywordsInFile: seq<string>) returns (threw: bool)
      requires Valid()
      modifies this
      ensures Valid()
      ensures collectedKeywords == AddAll(old(collectedKeywords), keywordsInFile)
      ensures |collectedKeywords| > |old(collectedKeywords)| <==>
                exists k :: k in keywordsInFile && k !in old(collectedKeywords)
      ensures invalidations == old(invalidations) + if |collectedKeywords| > |old(collectedKeywords)| then 1 else 0
      ensures threw <==> |collectedKeywords| > |old(collectedKeywords)| && config.None?
      ensures typesWrittenFrom == if |collectedKeywords| > |old(collectedKeywords)| && config.Some?
                                  then Some(collectedKeywords)
                                  else old(typesWrittenFrom)
      ensures typesWrites == old(typesWrites) + if |collectedKeywords| > |old(collectedKeywords)| && config.Some? then 1 else 0
      ensures config == old(config)
    {
      threw := false;
      var initial := collectedKeywords;
      AddAllGrows(initial, keywordsInFile);
      if keywordsInFile == [] {
        AddAllAbsorbs(initial, keywordsInFile);
        return;
      }
      collectedKeywords := AddEach(initial, keywordsInFile);
      if |collectedKeywords| > |initial| {
        invalidations := invalidations + 1;
        if config.None? {
          threw := true;
        } else {
          typesWrittenFrom := Some(collectedKeywords);
          typesWrites := typesWrites + 1;
        }
      } else {
        assert collectedKeywords == collectedKeywords[..|initial|] == initial;
      }
    }
  }

  /** `load` ignores a query after the resolved id. */
  lemma LoadIgnoresQuery(p: Plugin, query: string)
    ensures p.Load(RESOLVED_VIRTUAL_MODULE_ID + "?" + query) == p.Load(RESOLVED_VIRTUAL_MODULE_ID)
  {
    assert '?' !in RESOLVED_VIRTUAL_MODULE_ID;
    SplitQueryOf(RESOLVED_VIRTUAL_MODULE_ID, query);
  }
}
