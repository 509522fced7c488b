# Semantic checker of a small imperative language

This project models `SemantiqueVisitor`, the semantic pass a JavaCC-generated
compiler front end runs over the syntax tree of a small language. The language
has `num` and `bool` declarations, assignments, `if` and `while`, and
expressions built on a fixed precedence ladder:

- boolean connectives;
- comparisons;
- additive, then multiplicative operators;
- a sign (`-`), then `not`;
- values: integer literals, boolean literals and identifiers.

The pass walks the tree once, left to right. Along the way it:

- records each declaration in a symbol table and rejects a second declaration
  of the same name;
- checks that assignments and conditions have the right type;
- counts declarations (VAR), `while` loops (WHILE), `if` statements (IF) and
  operator tokens (OP);
- aborts on the first semantic error.

The visitor computes expression types through one mutable type slot (a
`DataStruct`). Every leaf overwrites the slot. Every precedence level checks
the slot left behind by the PREVIOUS sibling before it visits the next one.

In the model:

- The slot is an `Option<VarType>`. Unset is `None`.
- Each `visit` overload is a pure function in module `Checker`. An expression
  level takes the slot and the OP counter, and returns them in an `Eval`, or
  returns a `SemanticError`. Two exceptions: a value leaf (`VisitGenValue`)
  takes neither and returns only the slot it writes, and a negation
  (`VisitNot`) takes no slot, because its leaf overwrites it.
- A statement takes and returns a `State`: the symbol table plus the four
  counters.
- `Analyze` is the whole pass. It starts from an empty table and zero
  counters. On success it returns the four counters that the program prints.

Three independent reference definitions serve as partners to the checker:

- `Tally` gives the counters and declarations of a tree syntactically, with
  no slot.
- `Typing` says declaratively which expressions the checker accepts and which
  type each one leaves. At every level it checks every operand except the last.
- `CheckerState.Extends` says how a table may change: entries are only added,
  never rebound.

The lemmas in `Properties` relate the checker to these references for every
input. The lemmas in `Scenarios` give the verdict on concrete programs, for
any identifier names.

The model follows the code in these cases, some of which contradict what the
visitor's own comments (lines 33-50, 157, 189, 199-211, 214) suggest:

- An identifier that was never declared raises no error at the point of use,
  although the comment at lines 37-38 lists an undefined-identifier error. The
  table lookup leaves the slot unset. An assignment or condition that expects
  a type then rejects it (`Scenarios.UndeclaredValueFailsAssignment`,
  `Scenarios.UndeclaredConditionFails`). An assignment between two undeclared
  names is accepted (`Scenarios.UndeclaredIdentifierIsUnset`).
- Each level checks an operand only when the next sibling is visited, while
  the comments at lines 157, 189 and 214 say an operand of the wrong type is
  an error whenever the parent has more than one child.
  - `1 + true + 2` is rejected when the third term is visited, by the
    multiplicative check ("Invalid type in Add").
  - `1 + true` is accepted and has type Bool.
- A sign checks only the slot left by the previous factor, never its own
  operand, so `-true` has type Bool.
- A boolean connective does not check that its result is Bool, so `true && 1`
  has type Number.

## Model

| member | source | states |
|---|---|---|
| CheckerState.Lookup | src/analyzer/visitors/SemantiqueVisitor.java:254-264 | The lookup is set exactly when the name is in the table, and then holds the table's type; an absent name gives the unset slot rather than an error |
| Checker.VisitGenValue | src/analyzer/visitors/SemantiqueVisitor.java:241-270 | An integer leaf yields Number, a boolean leaf Bool, an identifier its declared type and unset exactly when undeclared; no leaf raises |
| Checker.VisitNot | src/analyzer/visitors/SemantiqueVisitor.java:224-233 | Without a `not` token the node is transparent; with one it succeeds exactly when its value is Bool, otherwise fails with the Not error; it adds its token count to OP and leaves the value's type |
| Checker.VisitUna | src/analyzer/visitors/SemantiqueVisitor.java:212-222 | An incoming Bool slot (the previous factor) is rejected with the Mul error; otherwise it succeeds exactly when its negation does, leaves its value's type and adds both nodes' tokens to OP |
| Checker.VisitFactors | src/analyzer/visitors/SemantiqueVisitor.java:193-195 | Visiting the factors in order adds exactly their syntactic operator tally to OP and can only fail with a Mul or Not error |
| Checker.VisitMul | src/analyzer/visitors/SemantiqueVisitor.java:187-197 | An incoming Bool slot (the previous term) is rejected with the Add error; on success OP grows by the node's syntactic tally |
| Checker.VisitTerms | src/analyzer/visitors/SemantiqueVisitor.java:180-183 | Visiting the terms in order adds exactly their syntactic tally to OP; errors are confined to Add, Mul and Not |
| Checker.VisitAdd | src/analyzer/visitors/SemantiqueVisitor.java:171-185 | A Bool left side under an operator other than `==` or `!=` is rejected with the Comp error; on success OP grows by the node's tally |
| Checker.VisitComp | src/analyzer/visitors/SemantiqueVisitor.java:155-169 | An incoming Number slot is rejected with the Bool error; a comparison with an operator leaves Bool and adds one plus both sides' tallies to OP; one without adds only its operand's tally |
| Checker.VisitConjuncts | src/analyzer/visitors/SemantiqueVisitor.java:148-151 | Visiting the comparisons in order adds exactly their tally to OP; only operand errors can arise |
| Checker.VisitBool | src/analyzer/visitors/SemantiqueVisitor.java:148-153 | OP grows by the comparisons' tallies plus the number of connectives; only operand errors can arise |
| Checker.VisitExpr | src/analyzer/visitors/SemantiqueVisitor.java:142-146 | An expression adds exactly its syntactic operator count to OP and can fail only with an operand error |
| Checker.Declare | src/analyzer/visitors/SemantiqueVisitor.java:69-79 | Fails, with the multiple-declarations error, exactly when the name is already in the table; otherwise the table gains exactly that binding (`num` gives Number, anything else Bool) and VAR alone rises by one |
| Checker.VisitAssign | src/analyzer/visitors/SemantiqueVisitor.java:128-140 | An error in the value propagates; otherwise it fails exactly when the target's entry (unset if undeclared) differs from the value's type; success changes only OP |
| Checker.VisitCondition | src/analyzer/visitors/SemantiqueVisitor.java:94-105 | A condition error propagates and a non-Bool condition (unset included) is rejected; after a Bool condition the outcome, error included, is exactly that of the body on the state the condition leaves; on success the counters rise by the condition's operators plus the body's tally and the table is extended by exactly the body's declarations |
| Checker.CheckStmt | src/analyzer/visitors/SemantiqueVisitor.java:81-123 | On success the counters rise by exactly the statement's syntactic tally and the table is extended by exactly its declarations |
| Checker.CheckStmts | src/analyzer/visitors/SemantiqueVisitor.java:81-92 | On success the counters rise by exactly the sequence's tally and the table is extended by exactly its declarations, in order |
| Checker.Analyze | src/analyzer/visitors/SemantiqueVisitor.java:59-64 | An accepted program yields exactly its syntactic VAR/WHILE/IF/OP tally, and its declarations name pairwise distinct identifiers |
| Properties.FactorsTyping | src/analyzer/visitors/SemantiqueVisitor.java:212-222 | The factors are accepted if and only if the incoming slot is not Bool, every negation holds and no factor but the last is Bool; they leave the last factor's type |
| Properties.MulTyping | src/analyzer/visitors/SemantiqueVisitor.java:187-197 | A multiplicative node is accepted if and only if the incoming slot is not Bool and its factors meet the declarative check; it leaves its last factor's type |
| Properties.TermsTyping | src/analyzer/visitors/SemantiqueVisitor.java:187-192 | The terms are accepted if and only if the incoming slot is not Bool, all factors are accepted and no term but the last is Bool; they leave the last term's type |
| Properties.AddTyping | src/analyzer/visitors/SemantiqueVisitor.java:171-185 | An additive node is accepted if and only if a Bool incoming slot comes with `==` or `!=` and its terms are accepted; its type does not depend on the incoming slot |
| Properties.CompTyping | src/analyzer/visitors/SemantiqueVisitor.java:155-169 | A comparison is accepted if and only if the incoming slot is not Number and both sides meet the declarative check (a Bool left side needing `==` or `!=`); it leaves the reference type |
| Properties.ConjunctsTyping | src/analyzer/visitors/SemantiqueVisitor.java:155-160 | The comparisons are accepted if and only if each is accepted and none but the last is Number; the last one's type is left unchecked |
| Properties.ExprTyping | src/analyzer/visitors/SemantiqueVisitor.java:142-153 | An expression on a fresh slot is accepted if and only if it meets the declarative operand checks, and it leaves the reference type |
| Properties.AssignTyping | src/analyzer/visitors/SemantiqueVisitor.java:128-140 | An assignment succeeds if and only if its value is accepted and the target's entry (unset when undeclared) equals the value's reference type |
| Properties.ConditionTyping | src/analyzer/visitors/SemantiqueVisitor.java:94-98 | `if` and `while` fail with the condition error whenever the accepted condition is not Bool, and succeed only when it is accepted and Bool |
| Properties.ConditionalCounts | src/analyzer/visitors/SemantiqueVisitor.java:111-123 | An accepted `if` (resp. `while`) leaves the state its condition and body left, with IF (resp. WHILE) one higher and nothing else changed |
| Properties.StmtOutcome | src/analyzer/visitors/SemantiqueVisitor.java:69-140 | A declaration has exactly the outcome of `Declare` and an assignment exactly that of `VisitAssign`, failures included; a block or statement list has exactly the outcome of its children, and an `if` or `while` fails exactly when its condition or its body fails, with that error: the first error aborts the enclosing statement |
| Properties.StmtsAppend | src/analyzer/visitors/SemantiqueVisitor.java:81-92 | Checking a concatenation is checking the first part and then the second on the state it leaves; an error in the first part aborts |
| Properties.DuplicateDeclarationRejected | src/analyzer/visitors/SemantiqueVisitor.java:70-75 | A program in which two declarations name the same identifier, anywhere and at any nesting, is rejected |
| Properties.TableOnlyGrows | src/analyzer/visitors/SemantiqueVisitor.java:72-76 | A successful statement never removes or rebinds a table entry, and one without declarations leaves the table unchanged |
| Scenarios.ComparisonOfValues | src/analyzer/visitors/SemantiqueVisitor.java:171-178 | A comparison of two values fails exactly when the left one is Bool and the operator is an ordering; otherwise it is Bool with OP 1 |
| Scenarios.AssignOnly | src/analyzer/visitors/SemantiqueVisitor.java:128-140 | The verdict on a one-assignment program: the value's error, the assignment error when the value has a type, otherwise acceptance with the value's operator count |
| Scenarios.DeclareThenAssign | src/analyzer/visitors/SemantiqueVisitor.java:69-140 | The verdict on a declaration followed by an assignment to it: the value's error, the assignment error when the types differ, otherwise VAR 1 and the value's operator count |
| Scenarios.AcceptedIf | src/analyzer/visitors/SemantiqueVisitor.java:111-116 | A program of one `if` whose condition leaves Bool yields IF 1 and the condition's operator count |
| Scenarios.OperatorCounting | src/analyzer/visitors/SemantiqueVisitor.java:171-197 | `num a; a = 1 + 2 * 3;` is accepted with VAR 1 and OP 2 |
| Scenarios.EqualityTolerance | src/analyzer/visitors/SemantiqueVisitor.java:171-178 | `bool a; a = a == true;` is accepted: equality may compare booleans |
| Scenarios.OrderingRejectsBool | src/analyzer/visitors/SemantiqueVisitor.java:171-178 | `bool a; a = a < true;` is rejected with the Comp error |
| Scenarios.NumberConditionRejected | src/analyzer/visitors/SemantiqueVisitor.java:94-98 | `if` and `while` on an integer literal are rejected with the condition error |
| Scenarios.BoolConditionAccepted | src/analyzer/visitors/SemantiqueVisitor.java:111-116 | `if` on a boolean literal is accepted and counts IF 1 |
| Scenarios.AssignmentTypeMismatch | src/analyzer/visitors/SemantiqueVisitor.java:129-138 | `num a; a = true;` is rejected with the assignment error naming `a` |
| Scenarios.AssignmentTypeMatch | src/analyzer/visitors/SemantiqueVisitor.java:129-138 | `bool b; b = false;` is accepted with VAR 1 |
| Scenarios.SecondDeclarationRejected | src/analyzer/visitors/SemantiqueVisitor.java:70-76 | `num a; bool a;` is rejected with the multiple-declarations error naming `a` |
| Scenarios.UndeclaredIdentifierIsUnset | src/analyzer/visitors/SemantiqueVisitor.java:253-264 | `x = y;` with neither declared is accepted: an undeclared use raises nothing |
| Scenarios.UndeclaredValueFailsAssignment | src/analyzer/visitors/SemantiqueVisitor.java:129-138 | `bool b; b = y;` with `y` undeclared fails on the assignment check |
| Scenarios.UndeclaredConditionFails | src/analyzer/visitors/SemantiqueVisitor.java:94-98 | `if (y) {}` with `y` undeclared fails on the condition check |
| Scenarios.BoolTermCaughtByNextTerm | src/analyzer/visitors/SemantiqueVisitor.java:187-192 | `num a; a = 1 + true + 2;` is rejected with the Add error, raised when the third term is visited |
| Scenarios.LastTermEscapes | src/analyzer/visitors/SemantiqueVisitor.java:187-192 | `bool b; b = 1 + true;` is accepted: the last term is never checked |
| Scenarios.ConnectiveResultUnchecked | src/analyzer/visitors/SemantiqueVisitor.java:148-153 | `num n; n = true && 1;` is accepted: a connective does not check its result |
| Scenarios.SignDoesNotCheckOperand | src/analyzer/visitors/SemantiqueVisitor.java:212-222 | `bool b; b = -true;` is accepted: a sign checks only the previous factor |
| Scenarios.GroupedBodyFails | src/analyzer/visitors/SemantiqueVisitor.java:81-92 | A body that fails on its own fails the whole program with the same error when it is nested in a block or a statement list |
| Scenarios.GuardedBodyFails | src/analyzer/visitors/SemantiqueVisitor.java:94-123 | A body that fails on its own fails the whole program with the same error when it is nested in an `if` or `while` whose condition is true |
| Scenarios.NestedAssignmentRejected | src/analyzer/visitors/SemantiqueVisitor.java:81-140 | `{ num a; a = true; }` and `if (true) { num a; a = true; }` are rejected with the assignment error naming `a` |

## Left out

- The printing of the four counters (line 62) is left out. `Analyze` returns them instead, and the output writer is not modelled.
- The JavaCC node classes, `childrenAccept` and the parent link are replaced by a typed syntax tree. The only parent the visitor reads is the enclosing comparison's operator (line 175), and `Checker.VisitAdd` takes it as the `parentOp` argument. Its requires states when that operator is present. In the source, a Bool slot reaches an additive node only on the right side of a comparison, so the cast and the null operator on line 175 are never reached.
- Java's 32-bit `int` counters are unbounded `nat`. Overflow after two billion operators is not modelled.
- Parenthesised sub-expressions and the grammar that builds the tree are not part of this model. Leaves are values, and a comparison with an operator always has two sides. So a `CompExpr` with an operator and one child, or without an operator and with two, cannot be built. What is lost: a value node passes the slot to its child unchanged (line 242) and a comparison checks the incoming slot before it resets it (lines 158-162), so in the source a parenthesised expression that follows a Number operand of a multiplicative or additive node raises the Bool error, a case the model cannot express.
- The text of the error messages is not modelled. `SemanticError` names each error, and keeps the identifier where the message includes it.
- `estCompatible` (lines 279-281), the `DataStruct(VarType)` constructor (lines 289-291) and `visit(SimpleNode)` (lines 54-57) are never used by the pass.
- An identifier whose parent is not a value node (line 256) is not visited through `VisitGenValue`. Declarations and assignment targets read their name directly, as lines 71 and 130 do.
- Checker.VisitFactors, Checker.VisitTerms, Checker.VisitConjuncts, Checker.VisitBool and Checker.VisitExpr state only the OP count and the error kinds in their own contracts. Exactly which inputs they accept, and which type they leave, is stated by the matching `Properties` lemma.
- Checker.CheckStmt: its own contract states only the success side, to keep the proofs that unfold it cheap. The failure side is stated by `Properties.StmtOutcome` for all six statement kinds: declarations, assignments, blocks, statement lists, `if` and `while`.
- Properties.TermsTyping, Properties.AddTyping, Properties.CompTyping, Properties.ConjunctsTyping, Properties.ExprTyping, Properties.AssignTyping and Properties.ConditionTyping require every multiplicative node to have at least one factor (`ExprShaped`). The grammar guarantees this. An empty multiplicative node would pass on the slot it received, which the declarative typing does not describe.
