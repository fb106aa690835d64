/**
 * The text the core emits: the body of the virtual module (`generateModuleCode`)
 * and the declaration file written by `generateTypesFile`, together with
 * decoders that read that text back, so that each generator is stated by the
 * round trip it completes.
 */
module KeywordsText {
  import opened Wrappers
  import opened JsString
  import opened KeywordSet
  import opened BabelAst
  import opened MinifiableKeywords

  /**
   * A name the generated text can carry unambiguously: no space, quote or
   * newline. Every name the extractor yields is an ECMAScript identifier name,
   * which never holds one of these.
   */
  predicate PlainName(k: string)
  {
    ' ' !in k && '\'' !in k && '\n' !in k
  }

  /** `'${key}'`: a name in single quotes, as both generators write it. */
  function Quoted(k: string): string
  {
    "'" + k + "'"
  }

  /** Reading a quoted name back: the name ends at the first quote after the opening one. */
  lemma QuotedSplit(k: string, tail: string)
    requires '\'' !in k
    ensures (Quoted(k) + tail)[0] == '\''
    ensures '\'' in (Quoted(k) + tail)[1..]
    ensures Before((Quoted(k) + tail)[1..], '\'') == k
    ensures After((Quoted(k) + tail)[1..], '\'') == tail
    ensures (Quoted(k) + tail)[1..][|k|..] == "'" + tail
  {
    assert (Quoted(k) + tail)[1..] == k + ['\''] + tail;
    SplitAtFirst(k, '\'', tail);
    assert (k + ("'" + tail))[..|k|] == k && (k + ("'" + tail))[|k|..] == "'" + tail;
  }

  // ---------------------------------------------------------------------------
  // generateModuleCode
  // ---------------------------------------------------------------------------

  const EXPORT_PREFIX: string := "export const "
  const SYMBOL_CALL: string := " = /* @__PURE__ */ Symbol("

  /** What follows `Symbol(`: the quoted name in development, nothing otherwise, then `);`. */
  function SymbolArgument(k: string, isDev: bool): string
  {
    (if isDev then Quoted(k) else "") + ");"
  }

  /** `k = /* @__PURE__ */ Symbol(...);`: the name bound to a fresh symbol. */
  function Declarator(k: string, isDev: bool): string
  {
    k + SYMBOL_CALL + SymbolArgument(k, isDev)
  }

  /** One export line without its `\n`: a fresh symbol, described by the name in development. */
  function ExportLine(k: string, isDev: bool): string
  {
    EXPORT_PREFIX + Declarator(k, isDev)
  }

  /** `generateModuleCode(collectedKeywords, isDev)`: one line per name, in set order. */
  function GenerateModuleCode(keys: seq<string>, isDev: bool): (r: string)
    ensures r == "" <==> keys == []
    ensures keys != [] ==> r[|r| - 1] == '\n'
  {
    if keys == [] then ""
    else ExportLine(keys[0], isDev) + "\n" + GenerateModuleCode(keys[1..], isDev)
  }

  /** One `export const` read back: the exported name and the symbol's description, if any. */
  datatype Export = Export(name: string, description: Option<string>)

  /** The export one name yields: described by itself exactly in development. */
  function ExportOf(k: string, isDev: bool): Export
  {
    Export(k, if isDev then Some(k) else None)
  }

  function ExportsOf(keys: seq<string>, isDev: bool): (r: seq<Export>)
    ensures |r| == |keys|
    ensures forall i :: 0 <= i < |keys| ==> r[i] == ExportOf(keys[i], isDev)
  {
    if keys == [] then [] else [ExportOf(keys[0], isDev)] + ExportsOf(keys[1..], isDev)
  }

  /** Reads one export line back; `None` for any other line. */
  function ParseExportLine(line: string): Option<Export>
  {
    if |line| < |EXPORT_PREFIX| || line[..|EXPORT_PREFIX|] != EXPORT_PREFIX then None
    else ParseDeclarator(line[|EXPORT_PREFIX|..])
  }

  /** `name = /* @__PURE__ */ Symbol(...);`, the name ending at the first space. */
  function ParseDeclarator(rest: string): Option<Export>
  {
    var name := Before(rest, ' ');
    var tail := rest[|name|..];
    if |tail| < |SYMBOL_CALL| || tail[..|SYMBOL_CALL|] != SYMBOL_CALL then None
    else ParseSymbolArgument(name, tail[|SYMBOL_CALL|..])
  }

  /** The rest of a `Symbol(` call: `);` or a quoted description followed by `);`. */
  function ParseSymbolArgument(name: string, arg: string): Option<Export>
  {
    if arg == ");" then Some(Export(name, None))
    else if arg != [] && arg[0] == '\'' then
      var desc := Before(arg[1..], '\'');
      if arg[1..][|desc|..] == "');" then Some(Export(name, Some(desc))) else None
    else None
  }

  /** Reads a whole module back, line by line; every line must end in `\n`. */
  function DecodeModule(text: string): Option<seq<Export>>
    decreases |text|
  {
    if text == [] then Some([])
    else if '\n' !in text then None
    else match ParseExportLine(Before(text, '\n'))
      case None => None
      case Some(e) =>
        match DecodeModule(After(text, '\n'))
        case None => None
        case Some(es) => Some([e] + es)
  }

  lemma SymbolArgumentRoundTrip(k: string, isDev: bool)
    requires '\'' !in k
    ensures ParseSymbolArgument(k, SymbolArgument(k, isDev)) == Some(ExportOf(k, isDev))
  {
    if isDev {
      QuotedSplit(k, ");");
      assert "'" + ");" == "');";
    }
  }

  lemma DeclaratorRoundTrip(k: string, arg: string)
    requires ' ' !in k
    ensures ParseDeclarator(k + SYMBOL_CALL + arg) == ParseSymbolArgument(k, arg)
  {
    SplitAtSeparator(k, ' ', SYMBOL_CALL, arg);
    assert (SYMBOL_CALL + arg)[..|SYMBOL_CALL|] == SYMBOL_CALL && (SYMBOL_CALL + arg)[|SYMBOL_CALL|..] == arg;
  }

  /** An export line holds no newline, so it ends where the module's next `\n` is. */
  lemma ExportLineSingle(k: string, isDev: bool)
    requires '\n' !in k
    ensures '\n' !in ExportLine(k, isDev)
  {
    assert '\n' !in EXPORT_PREFIX && '\n' !in SYMBOL_CALL && '\n' !in SymbolArgument(k, isDev);
    assert '\n' !in Declarator(k, isDev);
  }

  /** An export line reads back as the export it was made from. */
  lemma ExportLineRoundTrip(k: string, isDev: bool)
    requires PlainName(k)
    ensures ParseExportLine(ExportLine(k, isDev)) == Some(ExportOf(k, isDev))
  {
    assert (EXPORT_PREFIX + Declarator(k, isDev))[..|EXPORT_PREFIX|] == EXPORT_PREFIX
        && (EXPORT_PREFIX + Declarator(k, isDev))[|EXPORT_PREFIX|..] == Declarator(k, isDev);
    DeclaratorRoundTrip(k, SymbolArgument(k, isDev));
    SymbolArgumentRoundTrip(k, isDev);
  }

  /** The module reads back as one described-or-plain export per name, in set order. */
  lemma {:induction false} ModuleCodeRoundTrip(keys: seq<string>, isDev: bool)
    requires forall k :: k in keys ==> PlainName(k)
    ensures DecodeModule(GenerateModuleCode(keys, isDev)) == Some(ExportsOf(keys, isDev))
  {
    if keys != [] {
      var line := ExportLine(keys[0], isDev);
      var rest := GenerateModuleCode(keys[1..], isDev);
      assert keys[0] in keys;
      ExportLineSingle(keys[0], isDev);
      ExportLineRoundTrip(keys[0], isDev);
      SplitAtFirst(line, '\n', rest);
      ModuleCodeRoundTrip(keys[1..], isDev);
    }
  }

  /** The module contains the whole export line of every collected name. */
  lemma {:induction false} ModuleCodeContains(keys: seq<string>, isDev: bool, i: nat)
    requires i < |keys|
    ensures Includes(GenerateModuleCode(keys, isDev), ExportLine(keys[i], isDev) + "\n")
    decreases i
  {
    var first := ExportLine(keys[0], isDev) + "\n";
    var rest := GenerateModuleCode(keys[1..], isDev);
    assert GenerateModuleCode(keys, isDev) == first + rest;
    if i == 0 {
      assert [] + first + rest == first + rest;
      IncludesPart([], first, rest);
    } else {
      ModuleCodeContains(keys[1..], isDev, i - 1);
      assert keys[1..][i - 1] == keys[i];
      IncludesAfter(first, rest, ExportLine(keys[i], isDev) + "\n");
    }
  }

  // ---------------------------------------------------------------------------
  // generateTypesFile
  // ---------------------------------------------------------------------------

  /** `[...collectedKeywords].map(key => `'${key}'`).join(' | ')`. */
  function CollectedType(keys: seq<string>): (r: string)
    ensures r == "" <==> keys == []
    ensures keys != [] ==> r[0] == '\''
  {
    if keys == [] then ""
    else if |keys| == 1 then Quoted(keys[0])
    else Quoted(keys[0]) + (" | " + CollectedType(keys[1..]))
  }

  /** Reads a non-empty `'a' | 'b'` union back. */
  function ParseUnion(s: string): Option<seq<string>>
    decreases |s|
  {
    if s == [] || s[0] != '\'' || '\'' !in s[1..] then None
    else
      var k := Before(s[1..], '\'');
      var rest := After(s[1..], '\'');
      if rest == [] then Some([k])
      else if |rest| >= 3 && rest[..3] == " | " then
        match ParseUnion(rest[3..])
        case None => None
        case Some(ks) => Some([k] + ks)
      else None
  }

  /** A single quoted name reads back as that name. */
  lemma ParseUnionSingle(k: string)
    requires '\'' !in k
    ensures ParseUnion(Quoted(k)) == Some([k])
  {
    QuotedSplit(k, []);
    assert Quoted(k) + [] == Quoted(k);
  }

  /** A quoted name, ` | ` and more text read back as that name before what the rest reads as. */
  lemma ParseUnionCons(k: string, more: string)
    requires '\'' !in k
    ensures ParseUnion(Quoted(k) + (" | " + more))
         == match ParseUnion(more) case None => None case Some(ks) => Some([k] + ks)
  {
    QuotedSplit(k, " | " + more);
    assert (" | " + more)[..|" | "|] == " | " && (" | " + more)[|" | "|..] == more;
  }

  /** The union type reads back as the names, in set order. */
  lemma {:induction false} UnionRoundTrip(keys: seq<string>)
    requires keys != []
    requires forall k :: k in keys ==> '\'' !in k
    ensures ParseUnion(CollectedType(keys)) == Some(keys)
  {
    if |keys| == 1 {
      ParseUnionSingle(keys[0]);
      assert keys == [keys[0]];
    } else {
      var k, more := keys[0], CollectedType(keys[1..]);
      var text := Quoted(k) + (" | " + more);
      assert CollectedType(keys) == text;
      assert ParseUnion(text) == Some([k] + keys[1..]) by {
        UnionRoundTrip(keys[1..]);
        ParseUnionCons(k, more);
      }
      assert [k] + keys[1..] == keys;
    }
  }

  /** The type of `collected`: the union, or `never` for the empty set. */
  function TypeBody(keys: seq<string>): string
  {
    if |keys| > 0 then CollectedType(keys) else "never"
  }

  /** The first lines of the template of `generateTypesFile`, up to the type of `collected`. */
  function TypesHeader(pluginName: string): string
  {
    "/// <reference types=\"" + pluginName + "/global\" />\ndeclare module '" + VIRTUAL_MODULE_ID
    + "/types' {\n  interface Types {\n    collected: "
  }

  /** The rest of the template after the type of `collected`. */
  const TYPES_CLOSE: string := ";\n  }\n}"

  /** What the written file holds after the type of `collected`. */
  const TYPES_FOOTER: string := TYPES_CLOSE + "\n"

  /**
   * The template literal of `generateTypesFile`, before `trim()`: it opens with
   * a newline and closes with the brace of the `declare module` block.
   */
  function TypesContent(keys: seq<string>, pluginName: string): (r: string)
    ensures r != [] && r[0] == '\n' && r[|r| - 1] == '}'
  {
    "\n" + TypesHeader(pluginName) + TypeBody(keys) + TYPES_CLOSE
  }

  /**
   * What `generateTypesFile` writes: the trimmed content and one newline. That
   * is the template without its opening newline, and one newline after the
   * closing `}`: `trim()` removes only that opening newline.
   */
  function TypesFileText(keys: seq<string>, pluginName: string): (r: string)
    ensures r == TypesHeader(pluginName) + TypeBody(keys) + TYPES_FOOTER
  {
    var header, body := TypesHeader(pluginName), TypeBody(keys);
    assert header != [] && header[0] == '/';
    ContentLayout(header, body);
    TrimLayout(header + body + TYPES_CLOSE);
    Trim(TypesContent(keys, pluginName)) + "\n"
  }

  /** The template is a newline before a text that starts with `/` and ends with `}`, and that text plus a newline is the file. */
  lemma ContentLayout(header: string, body: string)
    requires header != [] && header[0] == '/'
    ensures var inner := header + body + TYPES_CLOSE;
      "\n" + header + body + TYPES_CLOSE == ['\n'] + inner
      && inner != [] && !IsWhitespace(inner[0]) && !IsWhitespace(inner[|inner| - 1])
      && inner + "\n" == header + body + TYPES_FOOTER
  {
    var inner := header + body + TYPES_CLOSE;
    assert inner[0] == '/' && inner[|inner| - 1] == '}';
  }

  /** `trim()` of a newline followed by a text that starts and ends with a printing character. */
  lemma TrimLayout(s: string)
    requires s != [] && !IsWhitespace(s[0]) && !IsWhitespace(s[|s| - 1])
    ensures Trim(['\n'] + s) == s
  {
    var t := ['\n'] + s;
    assert t[1..] == s;
    assert TrimStart(t) == TrimStart(s) == s;
  }

  /** Reads the type of `collected` back out of a written types file. */
  function DeclaredKeywords(text: string, pluginName: string): Option<seq<string>>
  {
    var header := TypesHeader(pluginName);
    if |text| < |header| + |TYPES_FOOTER| || text[..|header|] != header
       || text[|text| - |TYPES_FOOTER|..] != TYPES_FOOTER then None
    else
      var body := text[|header|..|text| - |TYPES_FOOTER|];
      if body == "never" then Some([]) else ParseUnion(body)
  }

  /** The decoder finds whatever stands between the header and the footer. */
  lemma DeclaredKeywordsOf(pluginName: string, body: string)
    ensures DeclaredKeywords(TypesHeader(pluginName) + body + TYPES_FOOTER, pluginName)
         == if body == "never" then Some([]) else ParseUnion(body)
  {
    Framed(TypesHeader(pluginName), body, TYPES_FOOTER);
  }

  /** The parts of `header + body + footer`, cut at the lengths of the outer two. */
  lemma Framed(header: string, body: string, footer: string)
    ensures var text := header + body + footer;
      && |text| >= |header| + |footer|
      && text[..|header|] == header
      && text[|text| - |footer|..] == footer
      && text[|header|..|text| - |footer|] == body
  {
    var text := header + body + footer;
    assert text == header + (body + footer);
    assert (header + (body + footer))[..|header|] == header && (header + (body + footer))[|header|..] == body + footer;
    assert (body + footer)[..|body|] == body && (body + footer)[|body|..] == footer;
  }

  /** The written types file declares exactly the collected names, in set order, or none. */
  lemma TypesFileRoundTrip(keys: seq<string>, pluginName: string)
    requires forall k :: k in keys ==> PlainName(k)
    ensures DeclaredKeywords(TypesFileText(keys, pluginName), pluginName) == Some(keys)
  {
    DeclaredKeywordsOf(pluginName, TypeBody(keys));
    if keys != [] {
      UnionRoundTrip(keys);
      assert TypeBody(keys)[0] == '\'';
    }
  }

  // ---------------------------------------------------------------------------
  // collectKeywordsAndGenerateTypes
  // ---------------------------------------------------------------------------

  /**
   * One call of `generateTypesFile(collectedKeywords, root, pluginName)`: the
   * set it was given and the plugin name the header references.
   */
  datatype TypesWrite = TypesWrite(keys: seq<string>, pluginName: string)
  {
    /** The text the call writes; it declares exactly the set, in set order. */
    function Text(): (r: string)
      ensures r == TypesHeader(pluginName) + TypeBody(keys) + TYPES_FOOTER
      ensures (forall k :: k in keys ==> PlainName(k)) ==> DeclaredKeywords(r, pluginName) == Some(keys)
    {
      if forall k :: k in keys ==> PlainName(k) then
        TypesFileRoundTrip(keys, pluginName);
        TypesFileText(keys, pluginName)
      else
        TypesFileText(keys, pluginName)
    }
  }

  /**
   * `collectKeywordsAndGenerateTypes`: the scan, then one declaration file
   * written for its result under the given plugin name.
   */
  method CollectKeywordsAndGenerateTypes(parse: Parser, files: seq<string>, pluginName: string)
    returns (collectedKeywords: seq<string>, written: TypesWrite)
    ensures collectedKeywords == Scan(parse, files)
    ensures written == TypesWrite(collectedKeywords, pluginName)
  {
    collectedKeywords := CollectKeywordsFromFiles(parse, files);
    written := TypesWrite(collectedKeywords, pluginName);
  }
}
