/** The syntax tree the semantic checker walks, as a closed set of node kinds.
    Each datatype is one node class of the parser; operator tokens are kept as
    the list of their images, as the parser's operator lists are. */
module Ast {

  /** The two types of the language. */
  datatype VarType = Bool | Number

  /** The type a declaration keyword introduces: `num` declares a Number and
      every other keyword a Bool. */
  function DeclaredType(keyword: string): VarType
  {
    if keyword == "num" then Number else Bool
  }

  /** The comparison operators under which a boolean operand is tolerated. */
  predicate IsEquality(op: string)
  {
    op == "==" || op == "!="
  }

  datatype Program = Program(body: seq<Stmt>)

  datatype Stmt =
    | Block(children: seq<Stmt>)
    | Statement(children: seq<Stmt>)
    | Declaration(keyword: string, name: string)
    | IfStmt(cond: Expr, body: seq<Stmt>)
    | WhileStmt(cond: Expr, body: seq<Stmt>)
    | AssignStmt(target: string, value: Expr)

  /** The expression precedence chain, outermost level first. */
  datatype Expr = Expr(body: BoolExpr)

  /** Comparisons joined by boolean connectives. */
  datatype BoolExpr = BoolExpr(operands: seq<CompExpr>, operators: seq<string>)

  /** An additive expression, alone or compared with a second one. */
  datatype CompExpr =
    | Single(operand: AddExpr)
    | Compare(left: AddExpr, op: string, right: AddExpr)

  datatype AddExpr = AddExpr(operands: seq<MulExpr>, operators: seq<string>)

  datatype MulExpr = MulExpr(operands: seq<UnaExpr>, operators: seq<string>)

  /** A negation preceded by zero or more sign tokens. */
  datatype UnaExpr = UnaExpr(operand: NotExpr, operators: seq<string>)

  /** A value preceded by zero or more `not` tokens. */
  datatype NotExpr = NotExpr(operand: GenValue, operators: seq<string>)

  datatype GenValue = GenValue(value: Value)

  datatype Value = BoolValue(b: bool) | IntValue(n: int) | Identifier(name: string)
}
