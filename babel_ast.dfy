/**
 * The part of a Babel syntax tree that keyword extraction looks at. Every node
 * kind the extractor does not test for is an `Other` node with its children in
 * the order Babel's traversal visits them. The parser itself (`@babel/parser`)
 * is not modelled: it is a `Parser` argument that either yields the `File`
 * node or, when it throws, nothing.
 */
module BabelAst {
  import opened Wrappers

  /** The specifiers of an `import` declaration. */
  datatype ImportSpecifier =
    | ImportNamespaceSpecifier(local: string)            // import * as local from ...
    | ImportDefaultSpecifier(local: string)              // import local from ...
    | ImportNamedSpecifier(imported: string, local: string)  // import { imported as local } from ...

  datatype Node =
    | ImportDeclaration(source: string, specifiers: seq<ImportSpecifier>)
    | MemberExpression(computed: bool, obj: Node, property: Node)  // `obj` is Babel's `object`
    | TSQualifiedName(left: Node, right: Node)
    | Identifier(name: string)
    | Other(children: seq<Node>)

  /** `parse(code, ...)`: the `File` node, or `None` when the parser throws. */
  type Parser = string -> Option<Node>

  /** The nodes of the tree rooted at `n`, each before its children (the order of `enter` calls). */
  function PreOrder(n: Node): (r: seq<Node>)
    ensures |r| >= 1 && r[0] == n
    decreases n, 1
  {
    [n] + match n
      case MemberExpression(_, obj, prop) => PreOrder(obj) + PreOrder(prop)
      case TSQualifiedName(left, right) => PreOrder(left) + PreOrder(right)
      case Other(children) => PreOrderList(children)
      case _ => []
  }

  function PreOrderList(ns: seq<Node>): seq<Node>
    decreases ns, 0
  {
    if ns == [] then [] else PreOrder(ns[0]) + PreOrderList(ns[1..])
  }

  /** The nodes `traverse(ast, ...)` enters, in order: every node below the root, never the root itself. */
  function Visited(ast: Node): seq<Node>
  {
    PreOrder(ast)[1..]
  }

  // The lemmas below spell out the visiting order of small trees.

  lemma PreOrderListSingle(n: Node)
    ensures PreOrderList([n]) == PreOrder(n)
  {
    assert [n][1..] == [];
    assert PreOrder(n) + [] == PreOrder(n);
  }

  lemma PreOrderList2(a: Node, b: Node)
    ensures PreOrderList([a, b]) == PreOrder(a) + PreOrder(b)
  {
    assert [a, b][1..] == [b];
    PreOrderListSingle(b);
  }

  lemma PreOrderList4(a: Node, b: Node, c: Node, d: Node)
    ensures PreOrderList([a, b, c, d]) == PreOrder(a) + PreOrder(b) + PreOrder(c) + PreOrder(d)
  {
    assert PreOrderList([a, b, c, d]) == PreOrder(a) + PreOrderList([b, c, d]) by {
      assert [a, b, c, d][1..] == [b, c, d];
    }
    assert PreOrderList([b, c, d]) == PreOrder(b) + PreOrderList([c, d]) by {
      assert [b, c, d][1..] == [c, d];
    }
    PreOrderList2(c, d);
    assert PreOrder(a) + (PreOrder(b) + (PreOrder(c) + PreOrder(d)))
        == PreOrder(a) + PreOrder(b) + PreOrder(c) + PreOrder(d);
  }

  /** An `Other` node is visited before its children, in order. */
  lemma PreOrderOther1(a: Node)
    ensures PreOrder(Other([a])) == [Other([a])] + PreOrder(a)
  {
    PreOrderListSingle(a);
  }

  lemma PreOrderOther2(a: Node, b: Node)
    ensures PreOrder(Other([a, b])) == [Other([a, b])] + PreOrder(a) + PreOrder(b)
  {
    var n := Other([a, b]);
    assert PreOrder(n) == [n] + PreOrderList([a, b]);
    PreOrderList2(a, b);
    assert [n] + (PreOrder(a) + PreOrder(b)) == [n] + PreOrder(a) + PreOrder(b);
  }

  lemma PreOrderOther4(a: Node, b: Node, c: Node, d: Node)
    ensures PreOrder(Other([a, b, c, d])) == [Other([a, b, c, d])] + PreOrderList([a, b, c, d])
  {
  }
}
