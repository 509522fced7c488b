/** Syntactic reference measures of a tree, defined without any typing: the
    number of operator tokens an expression contains, the declarations/whiles/ifs/tokens
    a statement contains, and the bindings its declarations introduce, in
    traversal order. The checker's counters and table are proved to move by
    exactly these amounts. */
module Tally {
  import opened Ast
  import opened CheckerState

  /** Signs and negations on one factor. */
  function UnaOps(u: UnaExpr): nat
  {
    |u.operand.operators| + |u.operators|
  }

  function FactorOps(us: seq<UnaExpr>): nat
  {
    if |us| == 0 then 0 else UnaOps(us[0]) + FactorOps(us[1..])
  }

  function MulOps(m: MulExpr): nat
  {
    FactorOps(m.operands) + |m.operators|
  }

  function TermOps(ms: seq<MulExpr>): nat
  {
    if |ms| == 0 then 0 else MulOps(ms[0]) + TermOps(ms[1..])
  }

  function AddOps(a: AddExpr): nat
  {
    TermOps(a.operands) + |a.operators|
  }

  function CompOps(c: CompExpr): nat
  {
    match c
    case Single(a) => AddOps(a)
    case Compare(l, _, r) => AddOps(l) + AddOps(r) + 1
  }

  function ConjunctOps(cs: seq<CompExpr>): nat
  {
    if |cs| == 0 then 0 else CompOps(cs[0]) + ConjunctOps(cs[1..])
  }

  function BoolOps(b: BoolExpr): nat
  {
    ConjunctOps(b.operands) + |b.operators|
  }

  /** How many operator tokens an expression holds: connectives, comparison,
      additive and multiplicative operators, signs and negations. */
  function ExprOps(e: Expr): nat
  {
    BoolOps(e.body)
  }

  /** How many declarations, whiles, ifs and operator tokens a statement holds. */
  function StmtTally(s: Stmt): Counters
    decreases s
  {
    match s
    case Block(children) => SeqTally(children)
    case Statement(children) => SeqTally(children)
    case Declaration(_, _) => Counters(1, 0, 0, 0)
    case IfStmt(cond, body) => Plus(Counters(0, 0, 1, ExprOps(cond)), SeqTally(body))
    case WhileStmt(cond, body) => Plus(Counters(0, 1, 0, ExprOps(cond)), SeqTally(body))
    case AssignStmt(_, value) => Counters(0, 0, 0, ExprOps(value))
  }

  function SeqTally(ss: seq<Stmt>): Counters
    decreases ss
  {
    if |ss| == 0 then Zero else Plus(StmtTally(ss[0]), SeqTally(ss[1..]))
  }

  /** The bindings a statement's declarations introduce, in source order. */
  function StmtDecls(s: Stmt): seq<Binding>
    decreases s
  {
    match s
    case Block(children) => SeqDecls(children)
    case Statement(children) => SeqDecls(children)
    case Declaration(keyword, name) => [Binding(name, DeclaredType(keyword))]
    case IfStmt(_, body) => SeqDecls(body)
    case WhileStmt(_, body) => SeqDecls(body)
    case AssignStmt(_, _) => []
  }

  function SeqDecls(ss: seq<Stmt>): seq<Binding>
    decreases ss
  {
    if |ss| == 0 then [] else StmtDecls(ss[0]) + SeqDecls(ss[1..])
  }
}
