/** The formula syntax tree: a closed set of five node kinds, built once and never changed. */
module Ast {
  import opened Wrappers

  datatype Node =
    | NumberNode(Value: real)
    | CellNode(Address: string)
    | BinaryNode(Op: string, Left: Node, Right: Node)
      /** Arg2 is None (the source's null) unless a second argument was parsed. */
    | FunctionNode(Name: string, Arg1: Node, Arg2: Option<Node>)
    | RangeNode(A: string, B: string)
}
