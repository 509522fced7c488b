/** Concrete programs and the verdict the checker reaches on each, including
    those where the code differs from what its comments suggest. */
module Scenarios {
  import opened Wrappers
  import opened Ast
  import opened CheckerState
  import opened Checker
  import Properties

  /** A value with no sign and no negation. */
  function Leaf(v: Value): UnaExpr
  {
    UnaExpr(NotExpr(GenValue(v), []), [])
  }

  /** A term made of one value. */
  function Term(v: Value): MulExpr
  {
    MulExpr([Leaf(v)], [])
  }

  /** An expression made of one additive expression. */
  function Plain(a: AddExpr): Expr
  {
    Expr(BoolExpr([Single(a)], []))
  }

  /** An expression made of one value. */
  function Atom(v: Value): Expr
  {
    Plain(AddExpr([Term(v)], []))
  }

  lemma PlainIsAdd(table: SymbolTable, ops: nat, a: AddExpr)
    ensures VisitExpr(table, ops, None, Plain(a)) == VisitAdd(table, ops, None, None, a)
  {
    var r := VisitAdd(table, ops, None, None, a);
    assert VisitComp(table, ops, None, Single(a)) == r;
    assert [Single(a)][1..] == [];
    if r.Ok? {
      assert VisitConjuncts(table, r.value.ops, r.value.slot, []) == r;
    }
    assert VisitConjuncts(table, ops, None, [Single(a)]) == r;
  }

  lemma TermIsLeaf(table: SymbolTable, ops: nat, slot: Slot, v: Value)
    requires slot != Some(Bool)
    ensures VisitMul(table, ops, slot, Term(v)) == Ok(Eval(ops, VisitGenValue(table, GenValue(v))))
  {
    var t := VisitGenValue(table, GenValue(v));
    assert VisitUna(table, ops, slot, Leaf(v)) == Ok(Eval(ops, t));
    assert [Leaf(v)][1..] == [];
    assert VisitFactors(table, ops, t, []) == Ok(Eval(ops, t));
    assert VisitFactors(table, ops, slot, [Leaf(v)]) == Ok(Eval(ops, t));
  }

  lemma AtomIsLeaf(table: SymbolTable, ops: nat, v: Value)
    ensures VisitExpr(table, ops, None, Atom(v)) == Ok(Eval(ops, VisitGenValue(table, GenValue(v))))
  {
    var t := VisitGenValue(table, GenValue(v));
    PlainIsAdd(table, ops, AddExpr([Term(v)], []));
    TermIsLeaf(table, ops, None, v);
    assert [Term(v)][1..] == [];
    assert VisitTerms(table, ops, t, []) == Ok(Eval(ops, t));
    assert VisitTerms(table, ops, None, [Term(v)]) == Ok(Eval(ops, t));
    assert VisitAdd(table, ops, None, None, AddExpr([Term(v)], [])) == Ok(Eval(ops, t));
  }

  /** An additive expression made of one value, visited after a reset. */
  lemma OneTermAdd(table: SymbolTable, ops: nat, slot: Slot, parentOp: Option<string>, v: Value)
    requires slot == Some(Bool) ==> parentOp.Some? && IsEquality(parentOp.value)
    ensures VisitAdd(table, ops, slot, parentOp, AddExpr([Term(v)], [])) == Ok(Eval(ops, VisitGenValue(table, GenValue(v))))
  {
    var t := VisitGenValue(table, GenValue(v));
    TermIsLeaf(table, ops, None, v);
    assert [Term(v)][1..] == [];
    assert VisitTerms(table, ops, t, []) == Ok(Eval(ops, t));
    assert VisitTerms(table, ops, None, [Term(v)]) == Ok(Eval(ops, t));
  }

  /** `l op r` for two values. */
  function Comparison(l: Value, op: string, r: Value): Expr
  {
    Expr(BoolExpr([Compare(AddExpr([Term(l)], []), op, AddExpr([Term(r)], []))], []))
  }

  /** Comparing two values fails only when the left one is Bool and the
      operator is not `==` or `!=`; otherwise the result is Bool and OP is 1. */
  lemma ComparisonOfValues(table: SymbolTable, l: Value, op: string, r: Value)
    ensures VisitExpr(table, 0, None, Comparison(l, op, r)) ==
      if VisitGenValue(table, GenValue(l)) == Some(Bool) && !IsEquality(op) then Err(InvalidTypeInComp)
      else Ok(Eval(1, Some(Bool)))
  {
    var c := Compare(AddExpr([Term(l)], []), op, AddExpr([Term(r)], []));
    var tl := VisitGenValue(table, GenValue(l));
    assert [c][1..] == [];
    OneTermAdd(table, 0, None, Some(op), l);
    if tl == Some(Bool) && !IsEquality(op) {
      assert VisitAdd(table, 0, tl, Some(op), AddExpr([Term(r)], [])) == Err(InvalidTypeInComp);
      assert VisitComp(table, 0, None, c) == Err(InvalidTypeInComp);
      assert VisitConjuncts(table, 0, None, [c]) == Err(InvalidTypeInComp);
    } else {
      OneTermAdd(table, 0, tl, Some(op), r);
      assert VisitComp(table, 0, None, c) == Ok(Eval(1, Some(Bool)));
      assert VisitConjuncts(table, 1, Some(Bool), []) == Ok(Eval(1, Some(Bool)));
      assert VisitConjuncts(table, 0, None, [c]) == Ok(Eval(1, Some(Bool)));
    }
  }

  lemma BoolKeyword()
    ensures DeclaredType("bool") == Bool
  {
  }

  /** Declaring a fresh name, as one statement. */
  lemma DeclareStep(st: State, keyword: string, name: string)
    requires name !in st.table
    ensures CheckStmt(st, Declaration(keyword, name)) ==
      Ok(State(st.table[name := DeclaredType(keyword)], st.counters.(vars := st.counters.vars + 1)))
  {
  }

  /** An assignment whose value is known to evaluate to `e`. */
  lemma AssignStep(st: State, target: string, value: Expr, e: Eval)
    requires VisitExpr(st.table, st.counters.ops, None, value) == Ok(e)
    ensures CheckStmt(st, AssignStmt(target, value)) ==
      if Lookup(st.table, target) != e.slot then Err(InvalidTypeInAssignment(target))
      else Ok(st.(counters := st.counters.(ops := e.ops)))
  {
  }

  /** Declaring a name the table already holds. */
  lemma DuplicateStep(st: State, keyword: string, name: string)
    requires name in st.table
    ensures CheckStmt(st, Declaration(keyword, name)) == Err(MultipleDeclarations(name))
  {
  }

  /** An `if` or `while` whose condition is known to evaluate to `e`, with an
      empty body. */
  lemma ConditionStep(st: State, cond: Expr, e: Eval)
    requires VisitExpr(st.table, st.counters.ops, None, cond) == Ok(e)
    ensures e.slot != Some(Bool) ==> CheckStmt(st, IfStmt(cond, [])) == Err(InvalidTypeInCondition)
    ensures e.slot != Some(Bool) ==> CheckStmt(st, WhileStmt(cond, [])) == Err(InvalidTypeInCondition)
    ensures e.slot == Some(Bool) ==>
      CheckStmt(st, IfStmt(cond, [])) == Ok(State(st.table, st.counters.(ifs := st.counters.ifs + 1, ops := e.ops)))
  {
    if e.slot == Some(Bool) {
      var mid := st.(counters := st.counters.(ops := e.ops));
      assert CheckStmts(mid, []) == Ok(mid);
      assert VisitCondition(st, cond, []) == Ok(mid);
    }
  }

  lemma StmtsOne(st: State, a: Stmt)
    ensures CheckStmts(st, [a]) == CheckStmt(st, a)
  {
    assert [a][1..] == [];
  }

  /** A one-statement program is rejected with the error of its statement. */
  lemma RejectedSingle(s: Stmt, e: SemanticError)
    requires CheckStmt(State(map[], Zero), s) == Err(e)
    ensures Analyze(Program([s])) == Err(e)
  {
    StmtsOne(State(map[], Zero), s);
  }

  lemma StmtsTwo(st: State, a: Stmt, b: Stmt)
    ensures CheckStmts(st, [a, b]) ==
      if CheckStmt(st, a).Err? then CheckStmt(st, a) else CheckStmt(CheckStmt(st, a).value, b)
  {
    assert [a, b][1..] == [b];
    StmtsOne(st, b);
    if CheckStmt(st, a).Ok? {
      StmtsOne(CheckStmt(st, a).value, b);
    }
  }

  /** The verdict on a program of one assignment `x = value;`, from how
      `value` evaluates against the empty table. */
  lemma AssignOnly(x: string, value: Expr, r: Result<Eval, SemanticError>)
    requires VisitExpr(map[], 0, None, value) == r
    ensures Analyze(Program([AssignStmt(x, value)])) ==
      if r.Err? then Err(r.error)
      else if r.value.slot != None then Err(InvalidTypeInAssignment(x))
      else Ok(Counters(0, 0, 0, r.value.ops))
  {
    var st0 := State(map[], Zero);
    if r.Ok? {
      AssignStep(st0, x, value, r.value);
    }
    StmtsOne(st0, AssignStmt(x, value));
  }

  /** The verdict on `T a; a = value;` follows from how `value` evaluates
      against the single binding. */
  lemma DeclareThenAssign(keyword: string, a: string, value: Expr, r: Result<Eval, SemanticError>)
    requires VisitExpr(map[a := DeclaredType(keyword)], 0, None, value) == r
    ensures Analyze(Program([Declaration(keyword, a), AssignStmt(a, value)])) ==
      if r.Err? then Err(r.error)
      else if r.value.slot != Some(DeclaredType(keyword)) then Err(InvalidTypeInAssignment(a))
      else Ok(Counters(1, 0, 0, r.value.ops))
  {
    var st0 := State(map[], Zero);
    var st1 := State(map[a := DeclaredType(keyword)], Counters(1, 0, 0, 0));
    assert CheckStmt(st0, Declaration(keyword, a)) == Ok(st1) by {
      DeclareStep(st0, keyword, a);
    }
    var verdict: Result<State, SemanticError> :=
      if r.Err? then Err(r.error)
      else if r.value.slot != Some(DeclaredType(keyword)) then Err(InvalidTypeInAssignment(a))
      else Ok(State(st1.table, Counters(1, 0, 0, r.value.ops)));
    assert CheckStmt(st1, AssignStmt(a, value)) == verdict by {
      if r.Ok? {
        AssignStep(st1, a, value, r.value);
      }
    }
    assert CheckStmts(st0, [Declaration(keyword, a), AssignStmt(a, value)]) == verdict by {
      StmtsTwo(st0, Declaration(keyword, a), AssignStmt(a, value));
    }
  }

  /** `1 + 2 * 3` as an expression. */
  function SumOfProduct(): Expr
  {
    Plain(AddExpr([Term(IntValue(1)), MulExpr([Leaf(IntValue(2)), Leaf(IntValue(3))], ["*"])], ["+"]))
  }

  lemma SumOfProductIsNumber(table: SymbolTable)
    ensures VisitExpr(table, 0, None, SumOfProduct()) == Ok(Eval(2, Some(Number)))
  {
    var product := MulExpr([Leaf(IntValue(2)), Leaf(IntValue(3))], ["*"]);
    var terms := [Term(IntValue(1)), product];
    assert [Leaf(IntValue(2)), Leaf(IntValue(3))][1..] == [Leaf(IntValue(3))];
    assert [Leaf(IntValue(3))][1..] == [];
    assert VisitMul(table, 0, Some(Number), product) == Ok(Eval(1, Some(Number)));
    TermIsLeaf(table, 0, None, IntValue(1));
    assert terms[1..] == [product];
    assert [product][1..] == [];
    assert VisitTerms(table, 0, Some(Number), [product]) == Ok(Eval(1, Some(Number)));
    assert VisitTerms(table, 0, None, terms) == Ok(Eval(1, Some(Number)));
    PlainIsAdd(table, 0, AddExpr(terms, ["+"]));
  }

  /** `num a; a = 1 + 2 * 3;` gives VAR 1 and OP 2, whatever the name. */
  lemma OperatorCounting(a: string)
    ensures Analyze(Program([Declaration("num", a), AssignStmt(a, SumOfProduct())])) == Ok(Counters(1, 0, 0, 2))
  {
    SumOfProductIsNumber(map[a := Number]);
    DeclareThenAssign("num", a, SumOfProduct(), Ok(Eval(2, Some(Number))));
  }

  /** `bool a; a = a == true;` is accepted: equality compares booleans. */
  lemma EqualityTolerance(a: string)
    ensures Analyze(Program([Declaration("bool", a), AssignStmt(a, Comparison(Identifier(a), "==", BoolValue(true)))]))
      == Ok(Counters(1, 0, 0, 1))
  {
    BoolKeyword();
    ComparisonOfValues(map[a := Bool], Identifier(a), "==", BoolValue(true));
    DeclareThenAssign("bool", a, Comparison(Identifier(a), "==", BoolValue(true)), Ok(Eval(1, Some(Bool))));
  }

  /** `bool a; a = a < true;` is rejected at the right side of `<`. */
  lemma OrderingRejectsBool(a: string)
    ensures Analyze(Program([Declaration("bool", a), AssignStmt(a, Comparison(Identifier(a), "<", BoolValue(true)))]))
      == Err(InvalidTypeInComp)
  {
    BoolKeyword();
    ComparisonOfValues(map[a := Bool], Identifier(a), "<", BoolValue(true));
    DeclareThenAssign("bool", a, Comparison(Identifier(a), "<", BoolValue(true)), Err(InvalidTypeInComp));
  }

  /** `if (1) {}` and `while (1) {}` are rejected: a Number condition. */
  lemma NumberConditionRejected(n: int)
    ensures Analyze(Program([IfStmt(Atom(IntValue(n)), [])])) == Err(InvalidTypeInCondition)
    ensures Analyze(Program([WhileStmt(Atom(IntValue(n)), [])])) == Err(InvalidTypeInCondition)
  {
    var st0 := State(map[], Zero);
    assert CheckStmt(st0, IfStmt(Atom(IntValue(n)), [])) == Err(InvalidTypeInCondition)
      && CheckStmt(st0, WhileStmt(Atom(IntValue(n)), [])) == Err(InvalidTypeInCondition) by {
      AtomIsLeaf(map[], 0, IntValue(n));
      ConditionStep(st0, Atom(IntValue(n)), Eval(0, Some(Number)));
    }
    RejectedSingle(IfStmt(Atom(IntValue(n)), []), InvalidTypeInCondition);
    RejectedSingle(WhileStmt(Atom(IntValue(n)), []), InvalidTypeInCondition);
  }

  /** `if (b) {}` is accepted for a literal `b`, and counts one `if`. */
  lemma BoolConditionAccepted(b: bool)
    ensures Analyze(Program([IfStmt(Atom(BoolValue(b)), [])])) == Ok(Counters(0, 0, 1, 0))
  {
    AtomIsLeaf(map[], 0, BoolValue(b));
    AcceptedIf(Atom(BoolValue(b)), Eval(0, Some(Bool)));
  }

  /** A program of one `if` with an empty body and a condition that leaves
      Bool counts one `if` and the condition's operators. */
  lemma AcceptedIf(cond: Expr, e: Eval)
    requires VisitExpr(map[], 0, None, cond) == Ok(e)
    requires e.slot == Some(Bool)
    ensures Analyze(Program([IfStmt(cond, [])])) == Ok(Counters(0, 0, 1, e.ops))
  {
    var st0 := State(map[], Zero);
    var s := IfStmt(cond, []);
    ConditionStep(st0, cond, e);
    StmtsOne(st0, s);
  }

  /** `num a; a = true;` is rejected. */
  lemma AssignmentTypeMismatch(a: string)
    ensures Analyze(Program([Declaration("num", a), AssignStmt(a, Atom(BoolValue(true)))]))
      == Err(InvalidTypeInAssignment(a))
  {
    AtomIsLeaf(map[a := Number], 0, BoolValue(true));
    DeclareThenAssign("num", a, Atom(BoolValue(true)), Ok(Eval(0, Some(Bool))));
  }

  /** `bool b; b = false;` is accepted. */
  lemma AssignmentTypeMatch(b: string)
    ensures Analyze(Program([Declaration("bool", b), AssignStmt(b, Atom(BoolValue(false)))]))
      == Ok(Counters(1, 0, 0, 0))
  {
    BoolKeyword();
    AtomIsLeaf(map[b := Bool], 0, BoolValue(false));
    DeclareThenAssign("bool", b, Atom(BoolValue(false)), Ok(Eval(0, Some(Bool))));
  }

  /** `num a; bool a;` is rejected as a second declaration of `a`. */
  lemma SecondDeclarationRejected(a: string)
    ensures Analyze(Program([Declaration("num", a), Declaration("bool", a)])) == Err(MultipleDeclarations(a))
  {
    var st0 := State(map[], Zero);
    var st1 := State(map[a := Number], Counters(1, 0, 0, 0));
    assert CheckStmt(st0, Declaration("num", a)) == Ok(st1) by {
      DeclareStep(st0, "num", a);
    }
    assert CheckStmt(st1, Declaration("bool", a)) == Err(MultipleDeclarations(a)) by {
      DuplicateStep(st1, "bool", a);
    }
    StmtsTwo(st0, Declaration("num", a), Declaration("bool", a));
  }

  /** An undeclared identifier raises nothing by itself: it leaves the slot
      unset, so `x = y;` with neither declared is accepted. */
  lemma UndeclaredIdentifierIsUnset(x: string, y: string)
    ensures Analyze(Program([AssignStmt(x, Atom(Identifier(y)))])) == Ok(Zero)
  {
    AtomIsLeaf(map[], 0, Identifier(y));
    AssignOnly(x, Atom(Identifier(y)), Ok(Eval(0, None)));
  }

  /** With `y` undeclared, `bool b; b = y;` fails on the assignment check, not
      on the use of `y`. */
  lemma UndeclaredValueFailsAssignment(b: string, y: string)
    requires b != y
    ensures Analyze(Program([Declaration("bool", b), AssignStmt(b, Atom(Identifier(y)))]))
      == Err(InvalidTypeInAssignment(b))
  {
    BoolKeyword();
    AtomIsLeaf(map[b := Bool], 0, Identifier(y));
    DeclareThenAssign("bool", b, Atom(Identifier(y)), Ok(Eval(0, None)));
  }

  /** With `y` undeclared, `if (y) {}` fails on the condition check. */
  lemma UndeclaredConditionFails(y: string)
    ensures Analyze(Program([IfStmt(Atom(Identifier(y)), [])])) == Err(InvalidTypeInCondition)
  {
    var st0 := State(map[], Zero);
    assert CheckStmt(st0, IfStmt(Atom(Identifier(y)), [])) == Err(InvalidTypeInCondition) by {
      AtomIsLeaf(map[], 0, Identifier(y));
      ConditionStep(st0, Atom(Identifier(y)), Eval(0, None));
    }
    RejectedSingle(IfStmt(Atom(Identifier(y)), []), InvalidTypeInCondition);
  }

  /** `1 + true + 2`. */
  function OnePlusTruePlusTwo(): Expr
  {
    Plain(AddExpr([Term(IntValue(1)), Term(BoolValue(true)), Term(IntValue(2))], ["+", "+"]))
  }

  lemma OnePlusTruePlusTwoRejected(table: SymbolTable)
    ensures VisitExpr(table, 0, None, OnePlusTruePlusTwo()) == Err(InvalidTypeInAdd)
  {
    var three := [Term(IntValue(1)), Term(BoolValue(true)), Term(IntValue(2))];
    TermIsLeaf(table, 0, None, IntValue(1));
    TermIsLeaf(table, 0, Some(Number), BoolValue(true));
    assert three[1..] == [Term(BoolValue(true)), Term(IntValue(2))];
    assert three[1..][1..] == [Term(IntValue(2))];
    assert VisitTerms(table, 0, Some(Bool), [Term(IntValue(2))]) == Err(InvalidTypeInAdd);
    assert VisitTerms(table, 0, Some(Number), three[1..]) == Err(InvalidTypeInAdd);
    assert VisitTerms(table, 0, None, three) == Err(InvalidTypeInAdd);
    PlainIsAdd(table, 0, AddExpr(three, ["+", "+"]));
  }

  /** In `1 + true + 2` the Bool term is caught only when the third term is
      visited, by the multiplicative check. */
  lemma BoolTermCaughtByNextTerm(a: string)
    ensures Analyze(Program([Declaration("num", a), AssignStmt(a, OnePlusTruePlusTwo())])) == Err(InvalidTypeInAdd)
  {
    OnePlusTruePlusTwoRejected(map[a := Number]);
    DeclareThenAssign("num", a, OnePlusTruePlusTwo(), Err(InvalidTypeInAdd));
  }

  /** `1 + true`. */
  function OnePlusTrue(): Expr
  {
    Plain(AddExpr([Term(IntValue(1)), Term(BoolValue(true))], ["+"]))
  }

  lemma OnePlusTrueIsBool(table: SymbolTable)
    ensures VisitExpr(table, 0, None, OnePlusTrue()) == Ok(Eval(1, Some(Bool)))
  {
    var two := [Term(IntValue(1)), Term(BoolValue(true))];
    TermIsLeaf(table, 0, None, IntValue(1));
    TermIsLeaf(table, 0, Some(Number), BoolValue(true));
    assert two[1..] == [Term(BoolValue(true))];
    assert two[1..][1..] == [];
    assert VisitTerms(table, 0, Some(Bool), []) == Ok(Eval(0, Some(Bool)));
    assert VisitTerms(table, 0, Some(Number), [Term(BoolValue(true))]) == Ok(Eval(0, Some(Bool)));
    assert VisitTerms(table, 0, None, two) == Ok(Eval(0, Some(Bool)));
    PlainIsAdd(table, 0, AddExpr(two, ["+"]));
  }

  /** In `1 + true` nothing follows the Bool term, so it is never checked:
      `bool b; b = 1 + true;` is accepted. */
  lemma LastTermEscapes(b: string)
    ensures Analyze(Program([Declaration("bool", b), AssignStmt(b, OnePlusTrue())])) == Ok(Counters(1, 0, 0, 1))
  {
    BoolKeyword();
    OnePlusTrueIsBool(map[b := Bool]);
    DeclareThenAssign("bool", b, OnePlusTrue(), Ok(Eval(1, Some(Bool))));
  }

  /** `true && 1`: two comparisons joined by a connective. */
  function TrueAndOne(): Expr
  {
    Expr(BoolExpr([Single(AddExpr([Term(BoolValue(true))], [])), Single(AddExpr([Term(IntValue(1))], []))], ["&&"]))
  }

  lemma TrueAndOneIsNumber(table: SymbolTable)
    ensures VisitExpr(table, 0, None, TrueAndOne()) == Ok(Eval(1, Some(Number)))
  {
    var first := Single(AddExpr([Term(BoolValue(true))], []));
    var second := Single(AddExpr([Term(IntValue(1))], []));
    OneTermAdd(table, 0, None, None, BoolValue(true));
    OneTermAdd(table, 0, None, None, IntValue(1));
    assert VisitComp(table, 0, None, first) == Ok(Eval(0, Some(Bool)));
    assert VisitComp(table, 0, Some(Bool), second) == Ok(Eval(0, Some(Number)));
    assert [first, second][1..] == [second];
    assert [second][1..] == [];
    assert VisitConjuncts(table, 0, Some(Number), []) == Ok(Eval(0, Some(Number)));
    assert VisitConjuncts(table, 0, Some(Bool), [second]) == Ok(Eval(0, Some(Number)));
    assert VisitConjuncts(table, 0, None, [first, second]) == Ok(Eval(0, Some(Number)));
  }

  /** A boolean connective does not check its result: `num n; n = true && 1;`
      is accepted. */
  lemma ConnectiveResultUnchecked(n: string)
    ensures Analyze(Program([Declaration("num", n), AssignStmt(n, TrueAndOne())])) == Ok(Counters(1, 0, 0, 1))
  {
    TrueAndOneIsNumber(map[n := Number]);
    DeclareThenAssign("num", n, TrueAndOne(), Ok(Eval(1, Some(Number))));
  }

  /** `-true`: a sign applied to a boolean. */
  function MinusTrue(): Expr
  {
    Plain(AddExpr([MulExpr([UnaExpr(NotExpr(GenValue(BoolValue(true)), []), ["-"])], [])], []))
  }

  lemma MinusTrueIsBool(table: SymbolTable)
    ensures VisitExpr(table, 0, None, MinusTrue()) == Ok(Eval(1, Some(Bool)))
  {
    var u := UnaExpr(NotExpr(GenValue(BoolValue(true)), []), ["-"]);
    var m := MulExpr([u], []);
    assert VisitUna(table, 0, None, u) == Ok(Eval(1, Some(Bool)));
    assert [u][1..] == [];
    assert VisitFactors(table, 1, Some(Bool), []) == Ok(Eval(1, Some(Bool)));
    assert VisitFactors(table, 0, None, [u]) == Ok(Eval(1, Some(Bool)));
    assert VisitMul(table, 0, None, m) == Ok(Eval(1, Some(Bool)));
    assert [m][1..] == [];
    assert VisitTerms(table, 1, Some(Bool), []) == Ok(Eval(1, Some(Bool)));
    assert VisitTerms(table, 0, None, [m]) == Ok(Eval(1, Some(Bool)));
    PlainIsAdd(table, 0, AddExpr([m], []));
  }

  /** A sign does not check its own operand: `bool b; b = -true;` is accepted. */
  lemma SignDoesNotCheckOperand(b: string)
    ensures Analyze(Program([Declaration("bool", b), AssignStmt(b, MinusTrue())])) == Ok(Counters(1, 0, 0, 1))
  {
    BoolKeyword();
    MinusTrueIsBool(map[b := Bool]);
    DeclareThenAssign("bool", b, MinusTrue(), Ok(Eval(1, Some(Bool))));
  }

  /** A block or statement list around a failing body fails with its error. */
  lemma GroupedBodyFails(body: seq<Stmt>, e: SemanticError)
    requires CheckStmts(State(map[], Zero), body) == Err(e)
    ensures Analyze(Program([Block(body)])) == Err(e)
    ensures Analyze(Program([Statement(body)])) == Err(e)
  {
    Properties.StmtOutcome(State(map[], Zero), Block(body));
    RejectedSingle(Block(body), e);
    Properties.StmtOutcome(State(map[], Zero), Statement(body));
    RejectedSingle(Statement(body), e);
  }

  /** An `if` or `while` with a true condition around a failing body fails
      with its error. */
  lemma GuardedBodyFails(body: seq<Stmt>, e: SemanticError)
    requires CheckStmts(State(map[], Zero), body) == Err(e)
    ensures Analyze(Program([IfStmt(Atom(BoolValue(true)), body)])) == Err(e)
    ensures Analyze(Program([WhileStmt(Atom(BoolValue(true)), body)])) == Err(e)
  {
    var st0 := State(map[], Zero);
    var cond := Atom(BoolValue(true));
    assert VisitCondition(st0, cond, body) == Err(e) by {
      AtomIsLeaf(map[], 0, BoolValue(true));
      assert st0.(counters := st0.counters.(ops := 0)) == st0;
    }
    assert CheckStmt(st0, IfStmt(cond, body)) == Err(e) by {
      Properties.StmtOutcome(st0, IfStmt(cond, body));
    }
    RejectedSingle(IfStmt(cond, body), e);
    assert CheckStmt(st0, WhileStmt(cond, body)) == Err(e) by {
      Properties.StmtOutcome(st0, WhileStmt(cond, body));
    }
    RejectedSingle(WhileStmt(cond, body), e);
  }

  /** `{ num a; a = true; }` and `if (true) { num a; a = true; }` are rejected
      with the assignment error of the nested statement. */
  lemma NestedAssignmentRejected(a: string)
    ensures Analyze(Program([Block([Declaration("num", a), AssignStmt(a, Atom(BoolValue(true)))])]))
      == Err(InvalidTypeInAssignment(a))
    ensures Analyze(Program([IfStmt(Atom(BoolValue(true)), [Declaration("num", a), AssignStmt(a, Atom(BoolValue(true)))])]))
      == Err(InvalidTypeInAssignment(a))
  {
    var body := [Declaration("num", a), AssignStmt(a, Atom(BoolValue(true)))];
    AssignmentTypeMismatch(a);
    assert CheckStmts(State(map[], Zero), body) == Err(InvalidTypeInAssignment(a));
    GroupedBodyFails(body, InvalidTypeInAssignment(a));
    GuardedBodyFails(body, InvalidTypeInAssignment(a));
  }
}
