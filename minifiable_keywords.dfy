/**
 * The `minifiable-keywords` library: keyword extraction from one file, the
 * project scan that unites the per-file results, the code of the virtual
 * module, and the text of the generated type declaration file.
 */
module MinifiableKeywords {
  import opened Wrappers
  import opened JsString
  import opened KeywordSet
  import opened BabelAst

  const VIRTUAL_MODULE_ID: string := "virtual:keywords"
  const RESOLVED_VIRTUAL_MODULE_ID: string := ['\0'] + VIRTUAL_MODULE_ID

  // ---------------------------------------------------------------------------
  // Extraction, pass 1: the namespace binding
  // ---------------------------------------------------------------------------

  /** `specifiers.find(s => s.type === 'ImportNamespaceSpecifier')`, as its local name. */
  function FirstNamespace(specifiers: seq<ImportSpecifier>): (r: Option<string>)
    ensures r.Some? <==> exists i :: 0 <= i < |specifiers| && specifiers[i].ImportNamespaceSpecifier?
    ensures r.Some? ==> exists i :: 0 <= i < |specifiers| && specifiers[i] == ImportNamespaceSpecifier(r.value)
                                  && forall j :: 0 <= j < i ==> !specifiers[j].ImportNamespaceSpecifier?
  {
    if specifiers == [] then None
    else if specifiers[0].ImportNamespaceSpecifier? then Some(specifiers[0].local)
    else
      var r := FirstNamespace(specifiers[1..]);
      assert forall i :: 1 <= i < |specifiers| ==> specifiers[i] == specifiers[1..][i - 1];
      r
  }

  /** The binding a node establishes when the first pass enters it: a namespace import of the virtual module. */
  function ImportBinding(n: Node): (r: Option<string>)
    ensures r.Some? <==> n.ImportDeclaration? && n.source == VIRTUAL_MODULE_ID
                         && exists i :: 0 <= i < |n.specifiers| && n.specifiers[i].ImportNamespaceSpecifier?
  {
    if n.ImportDeclaration? && n.source == VIRTUAL_MODULE_ID then FirstNamespace(n.specifiers) else None
  }

  /** The first pass: the binding of the first node, in visiting order, that establishes one. */
  function NamespaceBinding(nodes: seq<Node>): (r: Option<string>)
    ensures r.Some? ==> exists i :: 0 <= i < |nodes| && ImportBinding(nodes[i]) == r
                                  && forall j :: 0 <= j < i ==> ImportBinding(nodes[j]).None?
  {
    if nodes == [] then None
    else if ImportBinding(nodes[0]).Some? then ImportBinding(nodes[0])
    else
      var r := NamespaceBinding(nodes[1..]);
      assert forall i :: 1 <= i < |nodes| ==> nodes[i] == nodes[1..][i - 1];
      r
  }

  /** The first pass finds a binding exactly when some node establishes one. */
  lemma {:induction false} NamespaceBindingExists(nodes: seq<Node>)
    ensures NamespaceBinding(nodes).Some? <==> exists i :: 0 <= i < |nodes| && ImportBinding(nodes[i]).Some?
  {
    if nodes != [] {
      NamespaceBindingExists(nodes[1..]);
      assert forall i :: 1 <= i < |nodes| ==> nodes[i] == nodes[1..][i - 1];
      if exists i :: 0 <= i < |nodes| && ImportBinding(nodes[i]).Some? {
        var i :| 0 <= i < |nodes| && ImportBinding(nodes[i]).Some?;
        if i > 0 { assert ImportBinding(nodes[1..][i - 1]).Some?; }
      }
    }
  }

  /** Traversal stops at the first namespace import: its binding is the one used, whatever follows it. */
  lemma {:induction false} FirstNamespaceImportWins(nodes: seq<Node>, i: nat)
    requires i < |nodes| && ImportBinding(nodes[i]).Some?
    requires forall j :: 0 <= j < i ==> ImportBinding(nodes[j]).None?
    ensures NamespaceBinding(nodes) == ImportBinding(nodes[i])
  {
    if i > 0 {
      assert forall j :: 0 <= j < i - 1 ==> nodes[1..][j] == nodes[j + 1];
      FirstNamespaceImportWins(nodes[1..], i - 1);
    }
  }

  // ---------------------------------------------------------------------------
  // Extraction, pass 2: references through the binding
  // ---------------------------------------------------------------------------

  /**
   * The name a node contributes when the binding is `ns`: `ns.p` as a non-computed
   * member access whose property is an identifier, or `ns.p` as a qualified type name.
   */
  function Reference(n: Node, ns: string): (r: Option<string>)
    ensures n.MemberExpression? && n.computed ==> r.None?
    ensures r.Some? ==> (n.MemberExpression? && n.obj == Identifier(ns) && n.property == Identifier(r.value))
                        || (n.TSQualifiedName? && n.left == Identifier(ns) && n.right == Identifier(r.value))
  {
    match n
      case MemberExpression(computed, Identifier(obj), Identifier(prop)) =>
        if !computed && obj == ns then Some(prop) else None
      case TSQualifiedName(Identifier(left), Identifier(right)) =>
        if left == ns then Some(right) else None
      case _ => None
  }

  /** The second pass: every contributed name, once each, in the order first met. */
  function CollectReferences(nodes: seq<Node>, ns: string): (r: seq<string>)
    ensures NoDup(r)
    decreases |nodes|
  {
    if nodes == [] then []
    else
      var prev := CollectReferences(nodes[..|nodes| - 1], ns);
      match Reference(nodes[|nodes| - 1], ns)
        case Some(k) => Add(prev, k)
        case None => prev
  }

  /** One more node extends the second pass by the name it contributes, if any. */
  lemma CollectReferencesStep(nodes: seq<Node>, j: nat, ns: string)
    requires j < |nodes|
    ensures CollectReferences(nodes[..j + 1], ns) ==
      match Reference(nodes[j], ns)
        case Some(k) => Add(CollectReferences(nodes[..j], ns), k)
        case None => CollectReferences(nodes[..j], ns)
  {
    assert nodes[..j + 1][..j] == nodes[..j];
  }

  /** The second pass collects exactly the names some visited node contributes. */
  lemma {:induction false} CollectReferencesMembers(nodes: seq<Node>, ns: string)
    ensures forall k :: k in CollectReferences(nodes, ns) <==>
      exists i :: 0 <= i < |nodes| && Reference(nodes[i], ns) == Some(k)
    decreases |nodes|
  {
    if nodes != [] {
      var init := nodes[..|nodes| - 1];
      CollectReferencesMembers(init, ns);
      assert forall i :: 0 <= i < |init| ==> init[i] == nodes[i];
    }
  }

  /** `ns.k` occurs, as a counted reference, somewhere below the root of `ast`. */
  ghost predicate ReferencedThrough(ast: Node, ns: string, k: string)
  {
    var nodes := Visited(ast);
    exists i :: 0 <= i < |nodes| && Reference(nodes[i], ns) == Some(k)
  }

  /**
   * `extractKeywords(code)` given the tree the parser produced: nothing when
   * parsing threw, nothing without a (non-empty) namespace binding, and
   * otherwise the names referenced through the binding.
   */
  function KeywordsOf(ast: Option<Node>): (r: seq<string>)
    ensures NoDup(r)
    ensures ast.None? ==> r == []
  {
    match ast
      case None => []
      case Some(root) =>
        var nodes := Visited(root);
        match NamespaceBinding(nodes)
          case None => []
          case Some(ns) => if ns == "" then [] else CollectReferences(nodes, ns)
  }

  /**
   * A name is extracted from a parsed file exactly when the file has a non-empty
   * namespace binding and references the name through it.
   */
  lemma KeywordsOfMembers(ast: Node, k: string)
    ensures k in KeywordsOf(Some(ast)) <==>
      var b := NamespaceBinding(Visited(ast));
      b.Some? && b.value != "" && ReferencedThrough(ast, b.value, k)
  {
    var b := NamespaceBinding(Visited(ast));
    if b.Some? && b.value != "" {
      CollectReferencesMembers(Visited(ast), b.value);
    }
  }

  /** Without a namespace import of the virtual module (named and default imports do not count), nothing is extracted. */
  lemma NoNamespaceImportNoKeywords(ast: Node)
    requires forall i :: 0 <= i < |Visited(ast)| ==> ImportBinding(Visited(ast)[i]).None?
    ensures KeywordsOf(Some(ast)) == []
  {
    NamespaceBindingExists(Visited(ast));
  }

  /**
   * The first `traverse` of `extractKeywords`: the visitor records the local name
   * of the first namespace import of the virtual module and stops the traversal.
   */
  method FindKeywordNamespace(nodes: seq<Node>) returns (keywordNamespace: Option<string>)
    ensures keywordNamespace == NamespaceBinding(nodes)
  {
    keywordNamespace := None;
    var i := 0;
    while i < |nodes|
      invariant 0 <= i <= |nodes|
      invariant NamespaceBinding(nodes[i..]) == NamespaceBinding(nodes)
    {
      var node := nodes[i];
      assert nodes[i..][1..] == nodes[i + 1..];
      if node.ImportDeclaration? && node.source == VIRTUAL_MODULE_ID {
        var specifier := FirstNamespace(node.specifiers);
        if specifier.Some? {
          keywordNamespace := specifier;
          return;  // nodePath.stop()
        }
      }
      i := i + 1;
    }
  }

  /**
   * The second `traverse`: every non-computed `ns.p` member access and every
   * `ns.p` qualified name adds `p` to the set.
   */
  method CollectNamespaceReferences(nodes: seq<Node>, ns: string) returns (keywords: seq<string>)
    ensures keywords == CollectReferences(nodes, ns)
  {
    keywords := [];
    for j := 0 to |nodes|
      invariant keywords == CollectReferences(nodes[..j], ns)
    {
      var node := nodes[j];
      CollectReferencesStep(nodes, j, ns);
      if node.MemberExpression? && !node.computed && node.obj.Identifier?
        && node.obj.name == ns && node.property.Identifier?
      {
        assert Reference(node, ns) == Some(node.property.name);
        keywords := Add(keywords, node.property.name);
      } else if node.TSQualifiedName? && node.left.Identifier? && node.left.name == ns
        && node.right.Identifier?
      {
        assert Reference(node, ns) == Some(node.right.name);
        keywords := Add(keywords, node.right.name);
      } else {
        assert Reference(node, ns) == None;
      }
    }
    assert nodes[..|nodes|] == nodes;
  }

  /** `extractKeywords(code)`: parse, find the binding, collect the references through it. */
  method ExtractKeywords(parse: Parser, code: string) returns (keywords: seq<string>)
    ensures keywords == KeywordsOf(parse(code))
    ensures parse(code).None? ==> keywords == []
  {
    keywords := [];
    var ast := parse(code);
    if ast.None? {
      return;  // the parser threw
    }
    var nodes := Visited(ast.value);
    var keywordNamespace := FindKeywordNamespace(nodes);
    if keywordNamespace.None? || keywordNamespace.value == "" {
      return;
    }
    keywords := CollectNamespaceReferences(nodes, keywordNamespace.value);
  }

  // ---------------------------------------------------------------------------
  // Extraction on concrete trees
  // ---------------------------------------------------------------------------

  /** `const <name> = <init>;` (a declaration holding one declarator). */
  function ConstDeclaration(name: string, init: Node): Node
  {
    Other([Other([Identifier(name), init])])
  }

  /** `type <name> = <typeName>;` (an alias whose type is a reference to `typeName`). */
  function TypeAlias(name: string, typeName: Node): Node
  {
    Other([Identifier(name), Other([typeName])])
  }

  /**
   * `import * as <ns> from 'virtual:keywords'; const a = <ns>.<p>; const b = <ns>.<q>; type T = <ns>.<r>;`
   * as parsed.
   */
  function SampleFile(ns: string, p: string, q: string, r: string): Node
  {
    Other([Other([
      ImportDeclaration(VIRTUAL_MODULE_ID, [ImportNamespaceSpecifier(ns)]),
      ConstDeclaration("a", MemberExpression(false, Identifier(ns), Identifier(p))),
      ConstDeclaration("b", MemberExpression(false, Identifier(ns), Identifier(q))),
      TypeAlias("T", TSQualifiedName(Identifier(ns), Identifier(r)))
    ])])
  }

  /** `ns.p` (either kind) is visited as itself, then `ns`, then `p`. */
  lemma PreOrderReference(n: Node)
    requires n.MemberExpression? || n.TSQualifiedName?
    requires n.MemberExpression? ==> n.obj.Identifier? && n.property.Identifier?
    requires n.TSQualifiedName? ==> n.left.Identifier? && n.right.Identifier?
    ensures n.MemberExpression? ==> PreOrder(n) == [n, n.obj, n.property]
    ensures n.TSQualifiedName? ==> PreOrder(n) == [n, n.left, n.right]
  {
  }

  lemma PreOrderConstDeclaration(name: string, init: Node)
    requires init.MemberExpression? && init.obj.Identifier? && init.property.Identifier?
    ensures PreOrder(ConstDeclaration(name, init)) ==
      [ConstDeclaration(name, init), Other([Identifier(name), init]), Identifier(name), init, init.obj, init.property]
  {
    var declarator := Other([Identifier(name), init]);
    assert PreOrder(declarator) == [declarator, Identifier(name), init, init.obj, init.property] by {
      PreOrderOther2(Identifier(name), init);
      PreOrderReference(init);
    }
    PreOrderOther1(declarator);
  }

  lemma PreOrderTypeAlias(name: string, typeName: Node)
    requires typeName.TSQualifiedName? && typeName.left.Identifier? && typeName.right.Identifier?
    ensures PreOrder(TypeAlias(name, typeName)) ==
      [TypeAlias(name, typeName), Identifier(name), Other([typeName]), typeName, typeName.left, typeName.right]
  {
    var reference := Other([typeName]);
    assert PreOrder(reference) == [reference, typeName, typeName.left, typeName.right] by {
      PreOrderOther1(typeName);
      PreOrderReference(typeName);
    }
    PreOrderOther2(Identifier(name), reference);
  }

  /** `const <name> = <ns>.<prop>;` contributes `prop` when the binding is `ns`. */
  lemma ConstDeclarationReferences(name: string, ns: string, prop: string)
    ensures CollectReferences(PreOrder(ConstDeclaration(name, MemberExpression(false, Identifier(ns), Identifier(prop)))), ns) == [prop]
  {
    var init := MemberExpression(false, Identifier(ns), Identifier(prop));
    var declaration := ConstDeclaration(name, init);
    PreOrderConstDeclaration(name, init);
    var before := [declaration, Other([Identifier(name), init]), Identifier(name)];
    var after := [Identifier(ns), Identifier(prop)];
    assert PreOrder(declaration) == before + [init] + after;
    CollectReferencesSingleHit(before, init, after, ns, prop);
  }

  /** `type <name> = <ns>.<prop>;` contributes `prop` when the binding is `ns`. */
  lemma TypeAliasReferences(name: string, ns: string, prop: string)
    ensures CollectReferences(PreOrder(TypeAlias(name, TSQualifiedName(Identifier(ns), Identifier(prop)))), ns) == [prop]
  {
    var typeName := TSQualifiedName(Identifier(ns), Identifier(prop));
    var alias := TypeAlias(name, typeName);
    PreOrderTypeAlias(name, typeName);
    var before := [alias, Identifier(name), Other([typeName])];
    var after := [Identifier(ns), Identifier(prop)];
    assert PreOrder(alias) == before + [typeName] + after;
    CollectReferencesSingleHit(before, typeName, after, ns, prop);
  }

  /** Nodes of which exactly one contributes a name collect that name alone. */
  lemma CollectReferencesSingleHit(before: seq<Node>, hit: Node, after: seq<Node>, ns: string, k: string)
    requires forall i :: 0 <= i < |before| ==> Reference(before[i], ns).None?
    requires forall i :: 0 <= i < |after| ==> Reference(after[i], ns).None?
    requires Reference(hit, ns) == Some(k)
    ensures CollectReferences(before + [hit] + after, ns) == [k]
  {
    CollectReferencesNone(before, ns);
    CollectReferencesNone(after, ns);
    assert CollectReferences(before + [hit], ns) == [k] by {
      assert (before + [hit])[..|before|] == before;
      assert Add([], k) == [k];
    }
    CollectReferencesAppend(before + [hit], after, ns);
    assert AddAll([k], []) == [k];
  }

  /** Nodes that contribute nothing leave the second pass empty. */
  lemma {:induction false} CollectReferencesNone(nodes: seq<Node>, ns: string)
    requires forall i :: 0 <= i < |nodes| ==> Reference(nodes[i], ns).None?
    ensures CollectReferences(nodes, ns) == []
    decreases |nodes|
  {
    if nodes != [] {
      CollectReferencesNone(nodes[..|nodes| - 1], ns);
    }
  }

  lemma VisitedOnlyChild(program: Node)
    ensures Visited(Other([program])) == PreOrder(program)
  {
    PreOrderOther1(program);
  }

  lemma ConsConsAssoc(x: Node, y: Node, a: seq<Node>, b: seq<Node>, c: seq<Node>)
    ensures [x] + ([y] + a + b + c) == [x, y] + a + b + c
  {
  }

  /** A file holding a program of an import and three statements visits them in this order. */
  lemma VisitedProgram(imp: Node, a: Node, b: Node, c: Node)
    requires imp.ImportDeclaration?
    ensures var program := Other([imp, a, b, c]);
      Visited(Other([program])) == [program, imp] + PreOrder(a) + PreOrder(b) + PreOrder(c)
  {
    var program := Other([imp, a, b, c]);
    VisitedOnlyChild(program);
    assert PreOrder(program) == [program] + ([imp] + PreOrder(a) + PreOrder(b) + PreOrder(c)) by {
      PreOrderOther4(imp, a, b, c);
      PreOrderList4(imp, a, b, c);
      assert PreOrder(imp) == [imp];
    }
    ConsConsAssoc(program, imp, PreOrder(a), PreOrder(b), PreOrder(c));
  }

  /**
   * The test file of the library: value and type positions both count, so it yields
   * its three property names, in the order they are met.
   */
  lemma SampleFileKeywords(ns: string, p: string, q: string, r: string)
    requires ns != ""
    requires p != q && q != r && p != r
    ensures KeywordsOf(Some(SampleFile(ns, p, q, r))) == [p, q, r]
  {
    var program := SampleFile(ns, p, q, r).children[0];
    var imp, constA, constB, typeT := program.children[0], program.children[1], program.children[2], program.children[3];
    var head := [program, imp];
    var partA, partB, partT := PreOrder(constA), PreOrder(constB), PreOrder(typeT);
    var nodes := head + partA + partB + partT;
    assert program == Other([imp, constA, constB, typeT]);
    VisitedProgram(imp, constA, constB, typeT);
    assert NamespaceBinding(nodes) == Some(ns) by {
      FirstNamespaceImportWins(nodes, 1);
    }
    assert CollectReferences(nodes, ns) == [p, q, r] by {
      CollectReferencesNone(head, ns);
      ConstDeclarationReferences("a", ns, p);
      ConstDeclarationReferences("b", ns, q);
      TypeAliasReferences("T", ns, r);
      SampleReferences(head, partA, partB, partT, ns, p, q, r);
    }
  }

  /** Appending nodes that contribute exactly a new name `k` appends `k`. */
  lemma CollectReferencesAppendNew(a: seq<Node>, b: seq<Node>, ns: string, k: string)
    requires CollectReferences(b, ns) == [k] && k !in CollectReferences(a, ns)
    ensures CollectReferences(a + b, ns) == CollectReferences(a, ns) + [k]
  {
    CollectReferencesAppend(a, b, ns);
    AddAllSingle(CollectReferences(a, ns), k);
  }

  lemma SampleReferences(head: seq<Node>, partA: seq<Node>, partB: seq<Node>, partT: seq<Node>,
                         ns: string, p: string, q: string, r: string)
    requires CollectReferences(head, ns) == []
    requires CollectReferences(partA, ns) == [p]
    requires CollectReferences(partB, ns) == [q]
    requires CollectReferences(partT, ns) == [r]
    requires p != q && q != r && p != r
    ensures CollectReferences(head + partA + partB + partT, ns) == [p, q, r]
  {
    var upToA := head + partA;
    var upToB := upToA + partB;
    CollectReferencesAppendNew(head, partA, ns, p);
    assert [] + [p] == [p];
    CollectReferencesAppendNew(upToA, partB, ns, q);
    assert [p] + [q] == [p, q];
    CollectReferencesAppendNew(upToB, partT, ns, r);
    assert [p, q] + [r] == [p, q, r];
  }

  /** The second pass over `a + b` continues from where the pass over `a` left off. */
  lemma {:induction false} CollectReferencesAppend(a: seq<Node>, b: seq<Node>, ns: string)
    ensures CollectReferences(a + b, ns) == AddAll(CollectReferences(a, ns), CollectReferences(b, ns))
    decreases |b|
  {
    if b == [] {
      assert a + b == a;
    } else {
      var init, last := b[..|b| - 1], b[|b| - 1];
      var x, y := CollectReferences(a, ns), CollectReferences(init, ns);
      assert CollectReferences(a + init, ns) == AddAll(x, y) by {
        CollectReferencesAppend(a, init, ns);
      }
      assert (a + b)[..|a + b| - 1] == a + init && (a + b)[|a + b| - 1] == last;
      match Reference(last, ns)
        case None =>
        case Some(k) =>
          if k !in y {
            assert (y + [k])[..|y|] == y;
          }
    }
  }

  // ---------------------------------------------------------------------------
  // Project scan
  // ---------------------------------------------------------------------------

  /** What `extractKeywords` yields for each file. */
  function PerFile(parse: Parser, files: seq<string>): (r: seq<seq<string>>)
    ensures |r| == |files|
  {
    seq(|files|, i requires 0 <= i < |files| => KeywordsOf(parse(files[i])))
  }

  /** The registry after extracting every file of `files` and uniting the results, in that order. */
  function Scan(parse: Parser, files: seq<string>): (r: seq<string>)
    ensures NoDup(r)
    ensures files == [] ==> r == []
  {
    UniteAll(PerFile(parse, files))
  }

  /** Scanning a single file collects exactly that file's names, in its order. */
  lemma ScanSingle(parse: Parser, file: string)
    ensures Scan(parse, [file]) == KeywordsOf(parse(file))
  {
    var parts := PerFile(parse, [file]);
    var only := KeywordsOf(parse(file));
    assert |parts| == 1 && parts[0] == only;
    assert parts[..0] == [];
    assert UniteAll(parts) == AddAll(UniteAll([]), only);
    AddAllToEmpty(only);
  }

  /**
   * `collectKeywordsFromFiles`, given the contents of the matched files in the
   * order their reads complete.
   */
  method CollectKeywordsFromFiles(parse: Parser, files: seq<string>) returns (collectedKeywords: seq<string>)
    ensures collectedKeywords == Scan(parse, files)
  {
    collectedKeywords := [];
    for i := 0 to |files|
      invariant collectedKeywords == Scan(parse, files[..i])
    {
      var keywords := ExtractKeywords(parse, files[i]);
      collectedKeywords := AddEach(collectedKeywords, keywords);
      assert PerFile(parse, files[..i + 1])[..i] == PerFile(parse, files[..i]);
    }
    assert files[..|files|] == files;
  }

  /** The scan holds exactly the names some file yields. */
  lemma ScanMembers(parse: Parser, files: seq<string>, k: string)
    ensures k in Scan(parse, files) <==> exists i :: 0 <= i < |files| && k in KeywordsOf(parse(files[i]))
  {
    var results := PerFile(parse, files);
    UniteAllMembers(results, k);
    assert forall i :: 0 <= i < |files| ==> results[i] == KeywordsOf(parse(files[i]));
  }

  /** Every file's own result is part of the scan. */
  lemma ScanContainsEach(parse: Parser, files: seq<string>, i: nat)
    requires i < |files|
    ensures forall k :: k in KeywordsOf(parse(files[i])) ==> k in Scan(parse, files)
  {
    forall k | k in KeywordsOf(parse(files[i])) {
      ScanMembers(parse, files, k);
    }
  }

  /** Whatever order the reads complete in, the scan holds the same names. */
  lemma ScanOrderIndependent(parse: Parser, files: seq<string>, reordered: seq<string>)
    requires multiset(files) == multiset(reordered)
    ensures forall k :: k in Scan(parse, files) <==> k in Scan(parse, reordered)
  {
    forall k
      ensures k in Scan(parse, files) <==> k in Scan(parse, reordered)
    {
      ScanMembers(parse, files, k);
      ScanMembers(parse, reordered, k);
      if exists i :: 0 <= i < |files| && k in KeywordsOf(parse(files[i])) {
        var i :| 0 <= i < |files| && k in KeywordsOf(parse(files[i]));
        assert files[i] in multiset(reordered);
        var j :| 0 <= j < |reordered| && reordered[j] == files[i];
      }
      if exists j :: 0 <= j < |reordered| && k in KeywordsOf(parse(reordered[j])) {
        var j :| 0 <= j < |reordered| && k in KeywordsOf(parse(reordered[j]));
        assert reordered[j] in multiset(files);
        var i :| 0 <= i < |files| && files[i] == reordered[j];
      }
    }
  }
}
