/**
 * `packages/vite-plugin-minifiable-keywords/src/index.ts`, the Vite adapter of
 * the library. Unlike the root plugin it holds no set until `buildStart`
 * assigns the one the library's scan returns, takes development mode only
 * from `mode === 'development'`, and passes its arguments to the library
 * positionally: `buildStart` hands the array `[outDir, cacheDir]` to the
 * parameter `pluginName`, and `hotUpdate` leaves `pluginName` out.
 */
module PackageVitePlugin {
  import opened Wrappers
  import opened JsString
  import opened KeywordSet
  import opened BabelAst
  import opened MinifiableKeywords
  import opened KeywordsText
  import opened VitePlugin

  /**
   * The plugin name `buildStart` passes: the array `[outDir, cacheDir]` as a
   * template renders it, its elements joined by `,`. When the output
   * directory holds no `,`, splitting at the first `,` gives both back.
   */
  function BuildPluginName(c: Config): (r: string)
    ensures |r| == |c.outDir| + 1 + |c.cacheDir| && r[|c.outDir|] == ','
    ensures ',' !in c.outDir ==> Before(r, ',') == c.outDir && After(r, ',') == c.cacheDir
  {
    var r := c.outDir + "," + c.cacheDir;
    assert ',' !in c.outDir ==> Before(r, ',') == c.outDir && After(r, ',') == c.cacheDir by {
      if ',' !in c.outDir {
        assert r == c.outDir + [','] + c.cacheDir;
        SplitAtFirst(c.outDir, ',', c.cacheDir);
      }
    }
    r
  }

  /** The plugin name of a `generateTypesFile` call that leaves it out. */
  const OMITTED_PLUGIN_NAME: string := "undefined"

  /** The set grew: it existed before and holds more names now. */
  predicate Grew(before: Option<seq<string>>, after: Option<seq<string>>)
  {
    before.Some? && after.Some? && |after.value| > |before.value|
  }

  /** The state one call of `minifiableKeywordsPlugin()` closes over. */
  class Plugin {
    /** The parser `extractKeywords` runs. */
    const parse: Parser
    /** `collectedKeywords`: `None` while it is still `undefined`. */
    var collectedKeywords: Option<seq<string>>
    /** `config`, once `configResolved` has run. */
    var config: Option<Config>
    /** The last write of the declaration file, if any; its text is `TypesFile()`. */
    var typesWritten: Option<TypesWrite>
    /** How often the plugin called `generateTypesFile`, directly or through the library. */
    ghost var typesWrites: nat
    /** How often the plugin had the module graph invalidate the virtual module. */
    ghost var invalidations: nat

    /**
     * A set exists only after a configured `buildStart`, holds no name twice,
     * and the declaration file was last generated from it.
     */
    ghost predicate Valid()
      reads this
    {
      (collectedKeywords.Some? ==> NoDup(collectedKeywords.value) && config.Some?)
      && (typesWritten.Some? ==> collectedKeywords.Some? && typesWritten.value.keys == collectedKeywords.value)
    }

    constructor(parse: Parser)
      ensures Valid()
      ensures this.parse == parse && collectedKeywords == None && config == None
      ensures typesWritten == None && typesWrites == 0 && invalidations == 0
    {
      this.parse := parse;
      collectedKeywords := None;
      config := None;
      typesWritten := None;
      typesWrites := 0;
      invalidations := 0;
    }

    /** `configResolved(resolvedConfig)`. */
    method ConfigResolved(resolvedConfig: Config)
      requires Valid()
      modifies this
      ensures Valid()
      ensures config == Some(resolvedConfig)
      ensures collectedKeywords == old(collectedKeywords) && typesWritten == old(typesWritten)
      ensures typesWrites == old(typesWrites) && invalidations == old(invalidations)
    {
      config := Some(resolvedConfig);
    }

    /**
     * `buildStart()`: the set becomes the one `collectKeywordsAndGenerateTypes`
     * returns, and the declaration file carries `outDir,cacheDir` as the plugin
     * name. Without a configuration it throws before anything changes.
     */
    method BuildStart(files: seq<string>) returns (threw: bool)
      requires Valid()
      modifies this
      ensures Valid()
      ensures threw <==> config.None?
      ensures collectedKeywords == if threw then old(collectedKeywords) else Some(Scan(parse, files))
      ensures typesWritten == if threw then old(typesWritten)
                              else Some(TypesWrite(Scan(parse, files), BuildPluginName(config.value)))
      ensures typesWrites == old(typesWrites) + if threw then 0 else 1
      ensures config == old(config) && invalidations == old(invalidations)
    {
      if config.None? {
        return true;
      }
      var pluginName := BuildPluginName(config.value);
      var keywords, written := CollectKeywordsAndGenerateTypes(parse, files, pluginName);
      collectedKeywords := Some(keywords);
      typesWritten := Some(written);
      typesWrites := typesWrites + 1;
      threw := false;
    }

    /** The text of the declaration file as last written: it declares exactly the set. */
    function TypesFile(): (r: Option<string>)
      reads this
      requires Valid()
      ensures r.Some? <==> typesWritten.Some?
      ensures r.Some? && (forall k :: k in collectedKeywords.value ==> PlainName(k)) ==>
                DeclaredKeywords(r.value, typesWritten.value.pluginName) == collectedKeywords
    {
      if typesWritten.None? then None else Some(typesWritten.value.Text())
    }

    /**
     * `load(id)`: the module body for the virtual id, with or without a query;
     * symbols are described only in `development` mode. Before `configResolved`
     * or `buildStart` it throws.
     */
    function Load(id: string): (r: Outcome<string>)
      reads this
      ensures r.Declined? <==> SplitQuery(id) != RESOLVED_VIRTUAL_MODULE_ID
      ensures r.TypeError? <==> SplitQuery(id) == RESOLVED_VIRTUAL_MODULE_ID && (config.None? || collectedKeywords.None?)
      ensures r.Handled? ==> (r.value == "" <==> collectedKeywords.value == [])
      ensures r.Handled? && (forall k :: k in collectedKeywords.value ==> PlainName(k)) ==>
                DecodeModule(r.value) == Some(ExportsOf(collectedKeywords.value, config.value.mode == "development"))
    {
      if SplitQuery(id) != RESOLVED_VIRTUAL_MODULE_ID then Declined
      else if config.None? || collectedKeywords.None? then TypeError
      else
        var keys := collectedKeywords.value;
        var isDev := config.value.mode == "development";
        var code := GenerateModuleCode(keys, isDev);
        assert (forall k :: k in keys ==> PlainName(k)) ==> DecodeModule(code) == Some(ExportsOf(keys, isDev)) by {
          if forall k :: k in keys ==> PlainName(k) {
            ModuleCodeRoundTrip(keys, isDev);
          }
        }
        Handled(code)
    }

    /**
     * `hotUpdate({ type, file, read })`: as in the root plugin, except that it
     * throws when a file with names arrives before `buildStart`, and the
     * rewritten declaration file carries the plugin name `undefined`.
     */
    method HotUpdate(event: EventType, file: string, code: string) returns (threw: bool)
      requires Valid()
      modifies this
      ensures Valid()
      ensures threw <==> IsWatchedScript(event, file) && KeywordsOf(parse(code)) != [] && old(collectedKeywords).None?
      ensures collectedKeywords == if IsWatchedScript(event, file) && old(collectedKeywords).Some?
                                   then Some(AddAll(old(collectedKeywords).value, KeywordsOf(parse(code))))
                                   else old(collectedKeywords)
      ensures Grew(old(collectedKeywords), collectedKeywords) <==>
                IsWatchedScript(event, file) && old(collectedKeywords).Some?
                && exists k :: k in KeywordsOf(parse(code)) && k !in old(collectedKeywords).value
      ensures invalidations == old(invalidations) + if Grew(old(collectedKeywords), collectedKeywords) then 1 else 0
      ensures typesWritten == if Grew(old(collectedKeywords), collectedKeywords)
                              then Some(TypesWrite(collectedKeywords.value, OMITTED_PLUGIN_NAME))
                              else old(typesWritten)
      ensures typesWrites == old(typesWrites) + if Grew(old(collectedKeywords), collectedKeywords) then 1 else 0
      ensures config == old(config)
    {
      threw := false;
      if IsWatchedScript(event, file) {
        var keywordsInFile := ExtractKeywords(parse, code);
        threw := AddFileKeywords(keywordsInFile);
      }
    }

    /**
     * The rest of `hotUpdate` once the file's names are known: nothing for
     * none, a `TypeError` before `buildStart`, and otherwise the names join
     * the set, with an invalidation and a rewrite when one is new.
     */
    method AddFileKeywords(keywordsInFile: seq<string>) returns (threw: bool)
      requires Valid()
      modifies this
      ensures Valid()
      ensures threw <==> keywordsInFile != [] && old(collectedKeywords).None?
      ensures collectedKeywords == if old(collectedKeywords).Some?
                                   then Some(AddAll(old(collectedKeywords).value, keywordsInFile))
                                   else old(collectedKeywords)
      ensures Grew(old(collectedKeywords), collectedKeywords) <==>
                old(collectedKeywords).Some? && exists k :: k in keywordsInFile && k !in old(collectedKeywords).value
      ensures invalidations == old(invalidations) + if Grew(old(collectedKeywords), collectedKeywords) then 1 else 0
      ensures typesWritten == if Grew(old(collectedKeywords), collectedKeywords)
                              then Some(TypesWrite(collectedKeywords.value, OMITTED_PLUGIN_NAME))
                              else old(typesWritten)
      ensures typesWrites == old(typesWrites) + if Grew(old(collectedKeywords), collectedKeywords) then 1 else 0
      ensures config == old(config)
    {
      threw := false;
      if keywordsInFile == [] {
        if collectedKeywords.Some? {
          AddAllAbsorbs(collectedKeywords.value, keywordsInFile);
        }
        return;
      }
      if collectedKeywords.None? {
        return true;
      }
      MergeKeywords(keywordsInFile);
    }

    /**
     * The loop that adds a file's names to an existing set, and the
     * invalidation and rewrite that follow when the set grew.
     */
    method MergeKeywords(keywordsInFile: seq<string>)
      requires Valid() && collectedKeywords.Some?
      modifies this
      ensures Valid()
      ensures collectedKeywords == Some(AddAll(old(collectedKeywords).value, keywordsInFile))
      ensures Grew(old(collectedKeywords), collectedKeywords) <==>
                exists k :: k in keywordsInFile && k !in old(collectedKeywords).value
      ensures invalidations == old(invalidations) + if Grew(old(collectedKeywords), collectedKeywords) then 1 else 0
      ensures typesWritten == if Grew(old(collectedKeywords), collectedKeywords)
                              then Some(TypesWrite(collectedKeywords.value, OMITTED_PLUGIN_NAME))
                              else old(typesWritten)
      ensures typesWrites == old(typesWrites) + if Grew(old(collectedKeywords), collectedKeywords) then 1 else 0
      ensures config == old(config)
    {
      var initial := collectedKeywords.value;
      var updated := AddEach(initial, keywordsInFile);
      AddAllGrows(initial, keywordsInFile);
      collectedKeywords := Some(updated);
      if |updated| > |initial| {
        RewriteAfterGrowth();
      } else {
        AddAllSameSize(initial, keywordsInFile);
      }
    }

    /** What follows a growth of the set: the module is invalidated and the declaration file rewritten from the set. */
    method RewriteAfterGrowth()
      requires collectedKeywords.Some? && NoDup(collectedKeywords.value) && config.Some?
      modifies this
      ensures Valid()
      ensures collectedKeywords == old(collectedKeywords) && config == old(config)
      ensures invalidations == old(invalidations) + 1
      ensures typesWritten == Some(TypesWrite(collectedKeywords.value, OMITTED_PLUGIN_NAME))
      ensures typesWrites == old(typesWrites) + 1
    {
      invalidations := invalidations + 1;
      typesWritten := Some(TypesWrite(collectedKeywords.value, OMITTED_PLUGIN_NAME));
      typesWrites := typesWrites + 1;
    }
  }
}
