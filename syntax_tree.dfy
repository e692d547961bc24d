/**
 * The layout of a syntax-tree node (syntax_tree.h).  The symbol table stores
 * a function's body as such a node; the tree-walking evaluator that would
 * run it is not part of this model.
 */
module SyntaxTree {
  import opened Wrappers
  import opened Data

  // Node types
  const SYNTAX_INSTRUCTION: char := '0'
  const SYNTAX_IDENTIFIER: char := '1'
  const SYNTAX_VALUE: char := '2'

  // The "null" contents of a field
  const SYNTAX_NULLT: char := '\0'
  const SYNTAX_NULLB: bool := false

  /** A `syntax_node`; pointers to strings, values and children are options. */
  datatype SyntaxNode = SyntaxNode(
    nodetype: char,
    operation: char,
    evaluation: bool,
    instruction: char,
    identifier: Option<string>,
    value: Option<DataValue>,
    nodea: Option<SyntaxNode>,
    nodeb: Option<SyntaxNode>,
    nodec: Option<SyntaxNode>)

  /**
   * The node `syntax_initialize()` returns.  Its body is not part of this
   * model; it is taken to be the node whose every field holds the null
   * constant of its type.
   */
  function InitialNode(): (node: SyntaxNode)
    ensures node.nodetype == SYNTAX_NULLT && node.operation == SYNTAX_NULLT
    ensures node.evaluation == SYNTAX_NULLB && node.instruction == SYNTAX_NULLT
    ensures node.identifier.None? && node.value.None?
    ensures node.nodea.None? && node.nodeb.None? && node.nodec.None?
  {
    SyntaxNode(SYNTAX_NULLT, SYNTAX_NULLT, SYNTAX_NULLB, SYNTAX_NULLT, None, None, None, None, None)
  }
}
