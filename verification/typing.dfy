/** A declarative reference for the expression checks: which expressions the
    checker accepts and which type each one leaves, stated per precedence level
    without a threaded slot. The defining observation is that each level checks
    an operand only when the NEXT operand is visited, so at every level all
    operands but the last are constrained and the last one escapes. */
module Typing {
  import opened Wrappers
  import opened Ast
  import opened CheckerState

  /** The type of a value: an integer is Number, a boolean Bool, and an
      identifier has its table entry, unset when it was never declared. */
  function LeafType(table: SymbolTable, v: Value): Slot
  {
    match v
    case IntValue(_) => Some(Number)
    case BoolValue(_) => Some(Bool)
    case Identifier(name) => Lookup(table, name)
  }

  /** The type a unary node leaves: the type of its value. Neither a sign nor
      a negation changes it. */
  function UnaType(table: SymbolTable, u: UnaExpr): Slot
  {
    LeafType(table, u.operand.operand.value)
  }

  /** The type a multiplicative node leaves: that of its last factor. */
  function MulType(table: SymbolTable, m: MulExpr): Slot
  {
    if |m.operands| == 0 then None else UnaType(table, m.operands[|m.operands| - 1])
  }

  /** The type an additive node leaves: that of its last term. */
  function AddType(table: SymbolTable, a: AddExpr): Slot
  {
    if |a.operands| == 0 then None else MulType(table, a.operands[|a.operands| - 1])
  }

  /** A comparison with an operator is Bool; without one it has its operand's type. */
  function CompType(table: SymbolTable, c: CompExpr): Slot
  {
    match c
    case Single(a) => AddType(table, a)
    case Compare(_, _, _) => Some(Bool)
  }

  /** The type an expression leaves: that of its last comparison. */
  function ExprType(table: SymbolTable, e: Expr): Slot
  {
    var cs := e.body.operands;
    if |cs| == 0 then None else CompType(table, cs[|cs| - 1])
  }

  /** A negation with a `not` token needs a Bool value. */
  predicate NotAccepts(table: SymbolTable, n: NotExpr)
  {
    |n.operators| == 0 || LeafType(table, n.operand.value) == Some(Bool)
  }

  /** Every negation holds and no factor except the last is Bool. */
  predicate FactorsOk(table: SymbolTable, us: seq<UnaExpr>)
  {
    && (forall i :: 0 <= i < |us| ==> NotAccepts(table, us[i].operand))
    && (forall i :: 0 <= i < |us| - 1 ==> UnaType(table, us[i]) != Some(Bool))
  }

  /** Every term's factors are accepted and no term except the last is Bool. */
  predicate TermsOk(table: SymbolTable, ms: seq<MulExpr>)
  {
    && (forall j :: 0 <= j < |ms| ==> FactorsOk(table, ms[j].operands))
    && (forall j :: 0 <= j < |ms| - 1 ==> MulType(table, ms[j]) != Some(Bool))
  }

  /** Both sides are accepted, and a Bool left side needs `==` or `!=`. */
  predicate CompOk(table: SymbolTable, c: CompExpr)
  {
    match c
    case Single(a) => TermsOk(table, a.operands)
    case Compare(l, op, r) =>
      && TermsOk(table, l.operands)
      && TermsOk(table, r.operands)
      && (AddType(table, l) == Some(Bool) ==> IsEquality(op))
  }

  /** Every comparison is accepted and none except the last is Number. */
  predicate ConjunctsOk(table: SymbolTable, cs: seq<CompExpr>)
  {
    && (forall i :: 0 <= i < |cs| ==> CompOk(table, cs[i]))
    && (forall i :: 0 <= i < |cs| - 1 ==> CompType(table, cs[i]) != Some(Number))
  }

  /** The expression passes every operand check. */
  predicate ExprAccepts(table: SymbolTable, e: Expr)
  {
    ConjunctsOk(table, e.body.operands)
  }

  /** Every multiplicative node has at least one factor, as the grammar
      guarantees. (An empty one would pass its incoming slot through.) */
  predicate AddShaped(a: AddExpr)
  {
    forall j :: 0 <= j < |a.operands| ==> |a.operands[j].operands| > 0
  }

  predicate CompShaped(c: CompExpr)
  {
    match c
    case Single(a) => AddShaped(a)
    case Compare(l, _, r) => AddShaped(l) && AddShaped(r)
  }

  predicate ExprShaped(e: Expr)
  {
    forall i :: 0 <= i < |e.body.operands| ==> CompShaped(e.body.operands[i])
  }
}
