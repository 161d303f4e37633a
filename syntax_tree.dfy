/**
  The part of a tree-sitter syntax tree that both tools read: a node's type,
  its start and end rows (0-based), its byte span in the source, and its
  children in document order. Parsing itself is not modelled; trees are inputs.
*/
module SyntaxTree {

  datatype Node = Node(
    kind: string,
    startRow: nat,
    endRow: nat,
    startByte: nat,
    endByte: nat,
    children: seq<Node>)

  /**
    `content[node.StartByte():node.EndByte()]`. Tree-sitter only produces spans
    inside the parsed text; for any other span the model yields "".
  */
  function Text(content: string, n: Node): (r: string)
    ensures |r| <= |content|
    ensures n.startByte <= n.endByte <= |content| ==> r == content[n.startByte..n.endByte]
  {
    if n.startByte <= n.endByte <= |content| then content[n.startByte..n.endByte] else ""
  }

  /**
    Positions nest: every child lies within its parent's rows, and siblings
    follow each other in row order (a sibling may start on the row where the
    previous one ends).
  */
  ghost predicate RowsNested(n: Node) {
    && n.startRow <= n.endRow
    && (forall i :: 0 <= i < |n.children| ==>
          n.startRow <= n.children[i].startRow && n.children[i].endRow <= n.endRow)
    && (forall i :: 0 <= i < |n.children| - 1 ==> n.children[i].endRow <= n.children[i + 1].startRow)
    && (forall i :: 0 <= i < |n.children| ==> RowsNested(n.children[i]))
  }
}
