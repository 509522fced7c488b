/** Lemmas relating the checker to the declarative typing reference and to the
    syntactic tallies, and the sequencing behaviour of statement lists. */
module Properties {
  import opened Wrappers
  import opened Ast
  import opened CheckerState
  import opened Tally
  import opened Checker
  import opened Typing

  lemma FactorsOkCons(table: SymbolTable, us: seq<UnaExpr>)
    requires |us| > 0
    ensures FactorsOk(table, us) <==>
      && NotAccepts(table, us[0].operand)
      && (|us| > 1 ==> UnaType(table, us[0]) != Some(Bool))
      && FactorsOk(table, us[1..])
  {
    var tail := us[1..];
    assert forall i :: 0 <= i < |tail| ==> tail[i] == us[i + 1];
    if NotAccepts(table, us[0].operand) && (|us| > 1 ==> UnaType(table, us[0]) != Some(Bool)) && FactorsOk(table, tail) {
      forall i | 0 <= i < |us|
        ensures NotAccepts(table, us[i].operand)
      {
        if i > 0 { assert us[i] == tail[i - 1]; }
      }
      forall i | 0 <= i < |us| - 1
        ensures UnaType(table, us[i]) != Some(Bool)
      {
        if i > 0 { assert us[i] == tail[i - 1]; }
      }
    }
  }

  lemma TermsOkCons(table: SymbolTable, ms: seq<MulExpr>)
    requires |ms| > 0
    ensures TermsOk(table, ms) <==>
      && FactorsOk(table, ms[0].operands)
      && (|ms| > 1 ==> MulType(table, ms[0]) != Some(Bool))
      && TermsOk(table, ms[1..])
  {
    var tail := ms[1..];
    assert forall j :: 0 <= j < |tail| ==> tail[j] == ms[j + 1];
    if FactorsOk(table, ms[0].operands) && (|ms| > 1 ==> MulType(table, ms[0]) != Some(Bool)) && TermsOk(table, tail) {
      forall j | 0 <= j < |ms|
        ensures FactorsOk(table, ms[j].operands)
      {
        if j > 0 { assert ms[j] == tail[j - 1]; }
      }
      forall j | 0 <= j < |ms| - 1
        ensures MulType(table, ms[j]) != Some(Bool)
      {
        if j > 0 { assert ms[j] == tail[j - 1]; }
      }
    }
  }

  lemma ConjunctsOkCons(table: SymbolTable, cs: seq<CompExpr>)
    requires |cs| > 0
    ensures ConjunctsOk(table, cs) <==>
      && CompOk(table, cs[0])
      && (|cs| > 1 ==> CompType(table, cs[0]) != Some(Number))
      && ConjunctsOk(table, cs[1..])
  {
    var tail := cs[1..];
    assert forall i :: 0 <= i < |tail| ==> tail[i] == cs[i + 1];
    if CompOk(table, cs[0]) && (|cs| > 1 ==> CompType(table, cs[0]) != Some(Number)) && ConjunctsOk(table, tail) {
      forall i | 0 <= i < |cs|
        ensures CompOk(table, cs[i])
      {
        if i > 0 { assert cs[i] == tail[i - 1]; }
      }
      forall i | 0 <= i < |cs| - 1
        ensures CompType(table, cs[i]) != Some(Number)
      {
        if i > 0 { assert cs[i] == tail[i - 1]; }
      }
    }
  }

  /** The factors of a multiplicative node are accepted exactly when the
      incoming slot is not Bool (if there is a factor at all), every negation
      holds and no factor but the last is Bool; the last factor's type is left. */
  lemma {:induction false} FactorsTyping(table: SymbolTable, ops: nat, slot: Slot, us: seq<UnaExpr>)
    ensures VisitFactors(table, ops, slot, us).Ok? <==>
      (|us| == 0 || slot != Some(Bool)) && FactorsOk(table, us)
    ensures VisitFactors(table, ops, slot, us).Ok? ==>
      VisitFactors(table, ops, slot, us).value.slot == if |us| == 0 then slot else UnaType(table, us[|us| - 1])
    decreases |us|
  {
    if |us| > 0 {
      FactorsOkCons(table, us);
      var e := VisitUna(table, ops, slot, us[0]);
      if e.Ok? {
        FactorsTyping(table, e.value.ops, e.value.slot, us[1..]);
        if |us| > 1 {
          assert us[1..][|us| - 2] == us[|us| - 1];
        }
      }
    }
  }

  /** A multiplicative node is accepted exactly when the incoming slot is not
      Bool and its factors are accepted; it leaves its last factor's type. */
  lemma MulTyping(table: SymbolTable, ops: nat, slot: Slot, m: MulExpr)
    ensures VisitMul(table, ops, slot, m).Ok? <==> slot != Some(Bool) && FactorsOk(table, m.operands)
    ensures VisitMul(table, ops, slot, m).Ok? && |m.operands| > 0 ==>
      VisitMul(table, ops, slot, m).value.slot == MulType(table, m)
  {
    FactorsTyping(table, ops, slot, m.operands);
  }

  /** The terms of an additive node are accepted exactly when the incoming
      slot is not Bool (if there is a term), every term's factors are accepted
      and no term but the last is Bool; the last term's type is left. */
  lemma {:induction false} TermsTyping(table: SymbolTable, ops: nat, slot: Slot, ms: seq<MulExpr>)
    requires forall j :: 0 <= j < |ms| ==> |ms[j].operands| > 0
    ensures VisitTerms(table, ops, slot, ms).Ok? <==>
      (|ms| == 0 || slot != Some(Bool)) && TermsOk(table, ms)
    ensures VisitTerms(table, ops, slot, ms).Ok? ==>
      VisitTerms(table, ops, slot, ms).value.slot == if |ms| == 0 then slot else MulType(table, ms[|ms| - 1])
    decreases |ms|
  {
    if |ms| > 0 {
      TermsOkCons(table, ms);
      MulTyping(table, ops, slot, ms[0]);
      var e := VisitMul(table, ops, slot, ms[0]);
      if e.Ok? {
        assert forall j :: 0 <= j < |ms[1..]| ==> ms[1..][j] == ms[j + 1];
        TermsTyping(table, e.value.ops, e.value.slot, ms[1..]);
        if |ms| > 1 {
          assert ms[1..][|ms| - 2] == ms[|ms| - 1];
        }
      }
    }
  }

  /** An additive node is accepted exactly when a Bool incoming slot comes
      with an `==` or `!=` parent and its terms are accepted from a reset
      slot; the type it leaves does not depend on the incoming slot. */
  lemma AddTyping(table: SymbolTable, ops: nat, slot: Slot, parentOp: Option<string>, a: AddExpr)
    requires slot == Some(Bool) ==> parentOp.Some?
    requires AddShaped(a)
    ensures VisitAdd(table, ops, slot, parentOp, a).Ok? <==>
      (slot == Some(Bool) ==> IsEquality(parentOp.value)) && TermsOk(table, a.operands)
    ensures VisitAdd(table, ops, slot, parentOp, a).Ok? ==>
      VisitAdd(table, ops, slot, parentOp, a).value.slot == AddType(table, a)
  {
    TermsTyping(table, ops, None, a.operands);
  }

  /** A comparison is accepted exactly when the incoming slot is not Number
      and both sides are accepted, a Bool left side needing `==` or `!=`. */
  lemma CompTyping(table: SymbolTable, ops: nat, slot: Slot, c: CompExpr)
    requires CompShaped(c)
    ensures VisitComp(table, ops, slot, c).Ok? <==> slot != Some(Number) && CompOk(table, c)
    ensures VisitComp(table, ops, slot, c).Ok? ==> VisitComp(table, ops, slot, c).value.slot == CompType(table, c)
  {
    if slot != Some(Number) {
      match c
      case Single(a) =>
        AddTyping(table, ops, None, None, a);
      case Compare(l, op, r) =>
        AddTyping(table, ops, None, Some(op), l);
        var e := VisitAdd(table, ops, None, Some(op), l);
        if e.Ok? {
          AddTyping(table, e.value.ops, e.value.slot, Some(op), r);
        }
    }
  }

  /** Visiting a non-empty list of comparisons whose first one succeeds is
      visiting the rest on what the first one leaves. */
  lemma ConjunctsUnfold(table: SymbolTable, ops: nat, slot: Slot, cs: seq<CompExpr>, e: Eval)
    requires |cs| > 0 && VisitComp(table, ops, slot, cs[0]) == Ok(e)
    ensures VisitConjuncts(table, ops, slot, cs) == VisitConjuncts(table, e.ops, e.slot, cs[1..])
  {
  }

  /** The comparisons of a boolean node are accepted exactly when the
      incoming slot is not Number (if there is one), each is accepted and none
      but the last is Number; the last one's type is left, never checked. */
  lemma {:induction false} ConjunctsTyping(table: SymbolTable, ops: nat, slot: Slot, cs: seq<CompExpr>)
    requires forall i :: 0 <= i < |cs| ==> CompShaped(cs[i])
    ensures VisitConjuncts(table, ops, slot, cs).Ok? <==>
      (|cs| == 0 || slot != Some(Number)) && ConjunctsOk(table, cs)
    ensures VisitConjuncts(table, ops, slot, cs).Ok? ==>
      VisitConjuncts(table, ops, slot, cs).value.slot == if |cs| == 0 then slot else CompType(table, cs[|cs| - 1])
    decreases |cs|
  {
    if |cs| > 0 {
      ConjunctsOkCons(table, cs);
      CompTyping(table, ops, slot, cs[0]);
      var first := VisitComp(table, ops, slot, cs[0]);
      if first.Ok? {
        var tail := cs[1..];
        assert forall i :: 0 <= i < |tail| ==> CompShaped(tail[i]) by {
          assert forall i :: 0 <= i < |tail| ==> tail[i] == cs[i + 1];
        }
        ConjunctsUnfold(table, ops, slot, cs, first.value);
        ConjunctsTyping(table, first.value.ops, first.value.slot, tail);
        if |cs| > 1 {
          assert tail[|tail| - 1] == cs[|cs| - 1];
        }
      }
    }
  }

  /** An expression evaluated on a fresh slot is accepted exactly when it
      meets the declarative operand checks, and it leaves `ExprType`. */
  lemma ExprTyping(table: SymbolTable, ops: nat, e: Expr)
    requires ExprShaped(e)
    ensures VisitExpr(table, ops, None, e).Ok? <==> ExprAccepts(table, e)
    ensures VisitExpr(table, ops, None, e).Ok? ==> VisitExpr(table, ops, None, e).value.slot == ExprType(table, e)
  {
    ConjunctsTyping(table, ops, None, e.body.operands);
  }

  /** An assignment succeeds exactly when its value is accepted and the
      target's table entry, unset for an undeclared target, equals the
      value's type. */
  lemma AssignTyping(st: State, target: string, value: Expr)
    requires ExprShaped(value)
    ensures VisitAssign(st, target, value).Ok? <==>
      ExprAccepts(st.table, value) && Lookup(st.table, target) == ExprType(st.table, value)
  {
    ExprTyping(st.table, st.counters.ops, value);
  }

  /** An `if` or `while` fails with the condition error exactly when its
      condition is accepted but does not have type Bool (unset included), and
      can succeed only with a Bool condition. */
  lemma ConditionTyping(st: State, cond: Expr, body: seq<Stmt>)
    requires ExprShaped(cond)
    ensures ExprAccepts(st.table, cond) && ExprType(st.table, cond) != Some(Bool) ==>
      CheckStmt(st, IfStmt(cond, body)) == Err(InvalidTypeInCondition) &&
      CheckStmt(st, WhileStmt(cond, body)) == Err(InvalidTypeInCondition)
    ensures CheckStmt(st, IfStmt(cond, body)).Ok? || CheckStmt(st, WhileStmt(cond, body)).Ok? ==>
      ExprAccepts(st.table, cond) && ExprType(st.table, cond) == Some(Bool)
  {
    ExprTyping(st.table, st.counters.ops, cond);
  }

  /** On success IF (resp. WHILE) ends exactly one above the value it had
      after the body, and no other counter or the table is touched by the
      statement itself. */
  lemma ConditionalCounts(st: State, cond: Expr, body: seq<Stmt>)
    ensures var r := CheckStmt(st, IfStmt(cond, body)); var c := VisitCondition(st, cond, body);
      r.Ok? ==> c.Ok? && r.value == c.value.(counters := c.value.counters.(ifs := c.value.counters.ifs + 1))
    ensures var r := CheckStmt(st, WhileStmt(cond, body)); var c := VisitCondition(st, cond, body);
      r.Ok? ==> c.Ok? && r.value == c.value.(counters := c.value.counters.(whiles := c.value.counters.whiles + 1))
  {
  }

  /** The outcome of every kind of statement, failures included: a
      declaration is exactly `Declare` and an assignment exactly `VisitAssign`;
      a block or statement list has exactly the outcome of its children, and an
      `if` or `while` fails exactly when its condition or its body fails, with
      that error, so the first error aborts the enclosing statement. */
  lemma StmtOutcome(st: State, s: Stmt)
    ensures s.Declaration? ==> CheckStmt(st, s) == Declare(st, s.keyword, s.name)
    ensures s.AssignStmt? ==> CheckStmt(st, s) == VisitAssign(st, s.target, s.value)
    ensures s.Block? || s.Statement? ==> CheckStmt(st, s) == CheckStmts(st, s.children)
    ensures s.IfStmt? || s.WhileStmt? ==>
      && (CheckStmt(st, s).Err? <==> VisitCondition(st, s.cond, s.body).Err?)
      && (CheckStmt(st, s).Err? ==> CheckStmt(st, s).error == VisitCondition(st, s.cond, s.body).error)
  {
  }

  /** Checking `a + b` is checking `a` and then `b` on the state it leaves;
      an error in `a` aborts before `b` is looked at. */
  lemma {:induction false} StmtsAppend(st: State, a: seq<Stmt>, b: seq<Stmt>)
    ensures CheckStmts(st, a + b) ==
      if CheckStmts(st, a).Err? then CheckStmts(st, a) else CheckStmts(CheckStmts(st, a).value, b)
    decreases |a|
  {
    if |a| == 0 {
      assert a + b == b;
    } else {
      assert (a + b)[0] == a[0];
      assert (a + b)[1..] == a[1..] + b;
      var first := CheckStmt(st, a[0]);
      if first.Ok? {
        StmtsAppend(first.value, a[1..], b);
      }
    }
  }

  /** A program in which two declarations name the same identifier is
      rejected. */
  lemma DuplicateDeclarationRejected(p: Program, i: nat, j: nat)
    requires i < j < |SeqDecls(p.body)|
    requires SeqDecls(p.body)[i].name == SeqDecls(p.body)[j].name
    ensures Analyze(p).Err?
  {
  }

  /** Statements other than declarations never change the table, and a
      successful statement never removes or rebinds an existing entry. */
  lemma TableOnlyGrows(st: State, s: Stmt)
    ensures CheckStmt(st, s).Ok? ==>
      forall k :: k in st.table ==> k in CheckStmt(st, s).value.table && CheckStmt(st, s).value.table[k] == st.table[k]
    ensures CheckStmt(st, s).Ok? && StmtDecls(s) == [] ==> CheckStmt(st, s).value.table == st.table
  {
  }
}
