/**
 * `src/shared.ts`, the helpers of the root Vite plugin. Its `extractKeywords`
 * and scan loop are the library's, character for character, and are modelled
 * once in `MinifiableKeywords`; what differs is that the plugin name in the
 * declaration file is fixed.
 */
module Shared {
  import opened Wrappers
  import opened KeywordsText

  const PLUGIN_NAME: string := "vite-plugin-minifiable-keywords"

  /**
   * The text `generateTypesFile(collectedKeywords, root)` writes to
   * `<root>/.keywords/types.d.ts`: the fixed header naming this plugin, the
   * union of the collected names (or `never`), the closing lines.
   */
  function TypesFileText(keys: seq<string>): (r: string)
    ensures r == TypesHeader(PLUGIN_NAME) + TypeBody(keys) + TYPES_FOOTER
  {
    KeywordsText.TypesFileText(keys, PLUGIN_NAME)
  }

  /** The file declares exactly the names given, in set order. */
  lemma TypesFileDeclares(keys: seq<string>)
    requires forall k :: k in keys ==> PlainName(k)
    ensures DeclaredKeywords(TypesFileText(keys), PLUGIN_NAME) == Some(keys)
  {
    TypesFileRoundTrip(keys, PLUGIN_NAME);
  }
}
