/** The abstract syntax tree of VM/Data.py: twelve node kinds, tree shaped. */
module Data {
  import opened Common

  /** One constructor per dataclass. Field names follow the dataclasses, except where
      Dafny needs distinct names for fields of different types (`Return.result`,
      `Number.num`, `String.text`). */
  datatype Node =
    | Program(body: seq<Node>)
    | FuncDecl(name: string, params: seq<string>, body: seq<Node>)
    | Call(name: string, args: seq<Node>)
    | Assign(name: string, value: Node)
    | Return(result: Option<Node>)
    | BinaryOp(op: string, left: Node, right: Node)
    | UnaryOp(op: string, value: Node)
    | Number(num: real)
    | String(text: string)
    | Var(name: string)
    | If(cond: Node, body: seq<Node>, elseBody: ElseBody)
    | While(cond: Node, body: seq<Node>)

  /** The optional `else_body` list of an If node. A dedicated datatype rather than
      `Option<seq<Node>>`, so that Dafny sees the statements inside it as smaller
      than the If node that holds them. */
  datatype ElseBody = NoElse | Else(stmts: seq<Node>)
}
