/** The expression tree every variant builds: a closed variant in place of the
    node class hierarchy, over the variant's own operator type `O`. */
module Tree {
  import Numerals

  datatype Node<O> =
    | Number(value: real)
    | Unary(op: O, operand: Node<O>)
    | Binary(op: O, left: Node<O>, right: Node<O>)

  /** A parsed subtree and the cursor position after it. */
  datatype Parsed<O> = Parsed(node: Node<O>, pos: nat)

  /** The leaf a number token becomes: `NumberNode(Decimal(token))`, or
      `NumberNode(float(token))`, read exactly. */
  function Leaf<O>(text: string): Node<O> {
    Number(Numerals.LiteralValue(text))
  }
}
