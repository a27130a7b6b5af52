/** The syntax trees the translator walks.

    Python's parser produces these trees; here they are plain values. Only the
    node kinds the translator tells apart get their own constructor, and each
    keeps the children the translator reads plus, where it helps to state that
    they are ignored, the ones it does not read (assignment targets, comparison
    operators). Every other node kind is `Other`, tagged with its class name. */
module Syntax {

  datatype Option<+T> = None | Some(value: T)

  /** The Python value held by a numeric-literal node, classified the way the
      translator tests it: `bool` first, then `int`, then `str`; a float, a
      complex number or anything else is `OtherLit`. */
  datatype Value =
    | BoolLit(b: bool)
    | IntLit(n: int)
    | StrLit(s: string)
    | OtherLit

  datatype Node =
    | Num(n: Value)
    | Name(id: string)
    | Assign(targets: seq<Node>, value: Node)
    | If(test: Node, body: seq<Node>, orelse: seq<Node>)
    | Compare(left: Node, ops: seq<string>, comparators: seq<Node>)
    | Return(returned: Option<Node>)
    | BinOp(left: Node, op: string, right: Node)
    | Other(kind: string)
}
