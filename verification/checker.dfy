/** The single-pass semantic checker. Each function is one `visit` overload of
    the visitor; the symbol table and counters it mutates become a `State`
    taken and returned, the shared `DataStruct` type slot becomes the `slot`
    argument and the `slot` of the returned `Eval`, and a thrown semantic error
    becomes `Err`. Children are visited left to right and the first error
    aborts the pass. */
module Checker {
  import opened Wrappers
  import opened Ast
  import opened CheckerState
  import opened Tally

  /** A value leaf overwrites the slot: an integer gives Number, a boolean
      gives Bool and an identifier its table entry, or the unset slot when it
      was never declared. A leaf never raises. */
  function VisitGenValue(table: SymbolTable, g: GenValue): (t: Slot)
    ensures g.value.IntValue? ==> t == Some(Number)
    ensures g.value.BoolValue? ==> t == Some(Bool)
    ensures g.value.Identifier? ==> (t.Some? <==> g.value.name in table)
    ensures g.value.Identifier? && t.Some? ==> t.value == table[g.value.name]
  {
    match g.value
    case BoolValue(_) => Some(Bool)
    case IntValue(_) => Some(Number)
    case Identifier(name) => Lookup(table, name)
  }

  /** Negation: with no `not` token it is transparent; with one or more it
      requires its value to be Bool. It does not look at the incoming slot,
      which its leaf overwrites. */
  function VisitNot(table: SymbolTable, ops: nat, n: NotExpr): (r: Result<Eval, SemanticError>)
    ensures |n.operators| == 0 ==> r == Ok(Eval(ops, VisitGenValue(table, n.operand)))
    ensures |n.operators| > 0 ==> (r.Ok? <==> VisitGenValue(table, n.operand) == Some(Bool))
    ensures r.Ok? ==> r.value.ops == ops + |n.operators|
    ensures r.Ok? ==> r.value.slot == VisitGenValue(table, n.operand)
    ensures r.Err? ==> r.error == InvalidTypeInNot
  {
    var t := VisitGenValue(table, n.operand);
    if |n.operators| > 0 && t != Some(Bool) then Err(InvalidTypeInNot)
    else Ok(Eval(ops + |n.operators|, t))
  }

  /** Sign: rejects an incoming Bool slot (the previous factor) and otherwise
      leaves whatever its operand produced; it never checks that operand. */
  function VisitUna(table: SymbolTable, ops: nat, slot: Slot, u: UnaExpr): (r: Result<Eval, SemanticError>)
    ensures slot == Some(Bool) ==> r == Err(InvalidTypeInMul)
    ensures slot != Some(Bool) ==> (r.Ok? <==> VisitNot(table, ops, u.operand).Ok?)
    ensures r.Ok? ==> r.value.ops == ops + UnaOps(u)
    ensures r.Ok? ==> r.value.slot == VisitGenValue(table, u.operand.operand)
    ensures r.Err? ==> r.error in {InvalidTypeInMul, InvalidTypeInNot}
  {
    if slot == Some(Bool) then Err(InvalidTypeInMul)
    else
      var e :- VisitNot(table, ops, u.operand);
      Ok(Eval(e.ops + |u.operators|, e.slot))
  }

  /** The factors of a multiplicative node, visited in order on one shared slot. */
  function VisitFactors(table: SymbolTable, ops: nat, slot: Slot, us: seq<UnaExpr>): (r: Result<Eval, SemanticError>)
    ensures r.Ok? ==> r.value.ops == ops + FactorOps(us)
    ensures r.Err? ==> r.error in {InvalidTypeInMul, InvalidTypeInNot}
    decreases |us|
  {
    if |us| == 0 then Ok(Eval(ops, slot))
    else
      var e :- VisitUna(table, ops, slot, us[0]);
      VisitFactors(table, e.ops, e.slot, us[1..])
  }

  /** Multiplication: rejects an incoming Bool slot (the previous term). */
  function VisitMul(table: SymbolTable, ops: nat, slot: Slot, m: MulExpr): (r: Result<Eval, SemanticError>)
    ensures slot == Some(Bool) ==> r == Err(InvalidTypeInAdd)
    ensures r.Ok? ==> r.value.ops == ops + MulOps(m)
    ensures r.Err? ==> r.error in {InvalidTypeInAdd, InvalidTypeInMul, InvalidTypeInNot}
  {
    if slot == Some(Bool) then Err(InvalidTypeInAdd)
    else
      var e :- VisitFactors(table, ops, slot, m.operands);
      Ok(Eval(e.ops + |m.operators|, e.slot))
  }

  /** The terms of an additive node, visited in order on one shared slot. */
  function VisitTerms(table: SymbolTable, ops: nat, slot: Slot, ms: seq<MulExpr>): (r: Result<Eval, SemanticError>)
    ensures r.Ok? ==> r.value.ops == ops + TermOps(ms)
    ensures r.Err? ==> r.error in {InvalidTypeInAdd, InvalidTypeInMul, InvalidTypeInNot}
    decreases |ms|
  {
    if |ms| == 0 then Ok(Eval(ops, slot))
    else
      var e :- VisitMul(table, ops, slot, ms[0]);
      VisitTerms(table, e.ops, e.slot, ms[1..])
  }

  /** Addition: an incoming Bool slot (the left side of the enclosing
      comparison) is tolerated only under `==` or `!=`; then the slot is reset
      before the terms are visited. `parentOp` is the enclosing comparison's
      operator, read through the parent link in the visitor; it is only
      consulted when the slot is Bool, which happens only for the right side of
      a comparison, so it is present whenever it is needed. */
  function VisitAdd(table: SymbolTable, ops: nat, slot: Slot, parentOp: Option<string>, a: AddExpr): (r: Result<Eval, SemanticError>)
    requires slot == Some(Bool) ==> parentOp.Some?
    ensures slot == Some(Bool) && !IsEquality(parentOp.value) ==> r == Err(InvalidTypeInComp)
    ensures r.Ok? ==> r.value.ops == ops + AddOps(a)
    ensures r.Err? ==> r.error in {InvalidTypeInComp, InvalidTypeInAdd, InvalidTypeInMul, InvalidTypeInNot}
  {
    if slot == Some(Bool) && !IsEquality(parentOp.value) then Err(InvalidTypeInComp)
    else
      var e :- VisitTerms(table, ops, None, a.operands);
      Ok(Eval(e.ops + |a.operators|, e.slot))
  }

  /** Comparison: an incoming Number slot (the previous operand of a boolean
      connective) is rejected; otherwise the slot is reset, both sides are
      visited, and a present operator makes the result Bool and adds one to OP. */
  function VisitComp(table: SymbolTable, ops: nat, slot: Slot, c: CompExpr): (r: Result<Eval, SemanticError>)
    ensures slot == Some(Number) ==> r == Err(InvalidTypeInBool)
    ensures r.Ok? && c.Single? ==> r.value.ops == ops + AddOps(c.operand)
    ensures r.Ok? && c.Compare? ==> r.value.ops == ops + AddOps(c.left) + AddOps(c.right) + 1
    ensures r.Ok? && c.Compare? ==> r.value.slot == Some(Bool)
    ensures r.Err? ==> IsOperandError(r.error)
  {
    if slot == Some(Number) then Err(InvalidTypeInBool)
    else
      match c
      case Single(a) => VisitAdd(table, ops, None, None, a)
      case Compare(left, op, right) =>
        var l :- VisitAdd(table, ops, None, Some(op), left);
        var rt :- VisitAdd(table, l.ops, l.slot, Some(op), right);
        Ok(Eval(rt.ops + 1, Some(Bool)))
  }

  /** The comparisons of a boolean node, visited in order on one shared slot. */
  function VisitConjuncts(table: SymbolTable, ops: nat, slot: Slot, cs: seq<CompExpr>): (r: Result<Eval, SemanticError>)
    ensures r.Ok? ==> r.value.ops == ops + ConjunctOps(cs)
    ensures r.Err? ==> IsOperandError(r.error)
    decreases |cs|
  {
    if |cs| == 0 then Ok(Eval(ops, slot))
    else
      var e :- VisitComp(table, ops, slot, cs[0]);
      VisitConjuncts(table, e.ops, e.slot, cs[1..])
  }

  /** Boolean connectives: the comparisons are visited and OP grows by the
      number of connectives. The resulting slot is not checked to be Bool. */
  function VisitBool(table: SymbolTable, ops: nat, slot: Slot, b: BoolExpr): (r: Result<Eval, SemanticError>)
    ensures r.Ok? ==> r.value.ops == ops + BoolOps(b)
    ensures r.Err? ==> IsOperandError(r.error)
  {
    var e :- VisitConjuncts(table, ops, slot, b.operands);
    Ok(Eval(e.ops + |b.operators|, e.slot))
  }

  /** An expression node is transparent. */
  function VisitExpr(table: SymbolTable, ops: nat, slot: Slot, e: Expr): (r: Result<Eval, SemanticError>)
    ensures r.Ok? ==> r.value.ops == ops + ExprOps(e)
    ensures r.Err? ==> IsOperandError(r.error)
  {
    VisitBool(table, ops, slot, e.body)
  }

  /** Declaration: a name already in the table is rejected; otherwise the table
      gains exactly this binding and VAR rises by one. */
  function Declare(st: State, keyword: string, name: string): (r: Result<State, SemanticError>)
    ensures r.Err? <==> name in st.table
    ensures r.Err? ==> r.error == MultipleDeclarations(name)
    ensures r.Ok? ==> Extends(st.table, r.value.table, [Binding(name, DeclaredType(keyword))])
    ensures r.Ok? ==> r.value.counters == st.counters.(vars := st.counters.vars + 1)
  {
    if name in st.table then Err(MultipleDeclarations(name))
    else
      var table := st.table[name := DeclaredType(keyword)];
      ExtendsOne(st.table, name, DeclaredType(keyword));
      Ok(State(table, st.counters.(vars := st.counters.vars + 1)))
  }

  /** Assignment: the value is evaluated on a fresh slot, and the target's
      table entry (unset when undeclared) must equal the slot it leaves. The
      assignment itself changes neither the table nor a counter. */
  function VisitAssign(st: State, target: string, value: Expr): (r: Result<State, SemanticError>)
    ensures var e := VisitExpr(st.table, st.counters.ops, None, value);
      && (e.Err? ==> r == Err(e.error))
      && (e.Ok? ==> (r.Err? <==> Lookup(st.table, target) != e.value.slot))
      && (e.Ok? && r.Err? ==> r.error == InvalidTypeInAssignment(target))
      && (r.Ok? ==> r.value == st.(counters := st.counters.(ops := e.value.ops)))
  {
    var e :- VisitExpr(st.table, st.counters.ops, None, value);
    if Lookup(st.table, target) != e.slot then Err(InvalidTypeInAssignment(target))
    else Ok(st.(counters := st.counters.(ops := e.ops)))
  }

  /** The shared part of `if` and `while`: the condition is evaluated on a
      fresh slot and must leave Bool; then the body statements are visited. */
  function VisitCondition(st: State, cond: Expr, body: seq<Stmt>): (r: Result<State, SemanticError>)
    ensures var c := VisitExpr(st.table, st.counters.ops, None, cond);
      && (c.Err? ==> r == Err(c.error))
      && (c.Ok? && c.value.slot != Some(Bool) ==> r == Err(InvalidTypeInCondition))
    ensures var c := VisitExpr(st.table, st.counters.ops, None, cond);
      c.Ok? && c.value.slot == Some(Bool) ==> r == CheckStmts(st.(counters := st.counters.(ops := c.value.ops)), body)
    ensures r.Ok? ==> r.value.counters == Plus(st.counters, Plus(Counters(0, 0, 0, ExprOps(cond)), SeqTally(body)))
    ensures r.Ok? ==> Extends(st.table, r.value.table, SeqDecls(body))
    decreases body, 1
  {
    var c :- VisitExpr(st.table, st.counters.ops, None, cond);
    if c.slot != Some(Bool) then Err(InvalidTypeInCondition)
    else CheckStmts(st.(counters := st.counters.(ops := c.ops)), body)
  }

  /** One statement. On success the counters rise by exactly the statement's
      tally and the table is extended by exactly its declarations; the outcome
      of every statement kind, failures included, is `Properties.StmtOutcome`. */
  function CheckStmt(st: State, s: Stmt): (r: Result<State, SemanticError>)
    ensures r.Ok? ==> r.value.counters == Plus(st.counters, StmtTally(s))
    ensures r.Ok? ==> Extends(st.table, r.value.table, StmtDecls(s))
    decreases s, 2
  {
    match s
    case Block(children) => CheckStmts(st, children)
    case Statement(children) => CheckStmts(st, children)
    case Declaration(keyword, name) => Declare(st, keyword, name)
    case IfStmt(cond, body) =>
      var after :- VisitCondition(st, cond, body);
      Ok(after.(counters := after.counters.(ifs := after.counters.ifs + 1)))
    case WhileStmt(cond, body) =>
      var after :- VisitCondition(st, cond, body);
      Ok(after.(counters := after.counters.(whiles := after.counters.whiles + 1)))
    case AssignStmt(target, value) =>
      ExtendsNothing(st.table);
      VisitAssign(st, target, value)
  }

  /** Statements in order, each on the state the previous one left. */
  function CheckStmts(st: State, ss: seq<Stmt>): (r: Result<State, SemanticError>)
    ensures r.Ok? ==> r.value.counters == Plus(st.counters, SeqTally(ss))
    ensures r.Ok? ==> Extends(st.table, r.value.table, SeqDecls(ss))
    decreases ss, 0
  {
    if |ss| == 0 then
      ExtendsNothing(st.table);
      Ok(st)
    else
      var first := CheckStmt(st, ss[0]);
      if first.Err? then Err(first.error)
      else
        var rest := CheckStmts(first.value, ss[1..]);
        if rest.Ok? then
          ExtendsCompose(st.table, first.value.table, rest.value.table, StmtDecls(ss[0]), SeqDecls(ss[1..]));
          rest
        else rest
  }

  /** The whole pass, from an empty table and zero counters; on success it
      yields the final VAR, WHILE, IF and OP values. */
  function Analyze(p: Program): (r: Result<Counters, SemanticError>)
    ensures r.Ok? ==> r.value == SeqTally(p.body)
    ensures r.Ok? ==> FreshBindings(map[], SeqDecls(p.body))
  {
    var final :- CheckStmts(State(map[], Zero), p.body);
    Ok(final.counters)
  }
}
