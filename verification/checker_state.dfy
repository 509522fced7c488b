/** The state the checker threads through one pass: the symbol table, the four
    counters, the type slot of the expression under evaluation, and the errors
    that abort the pass. */
module CheckerState {
  import opened Wrappers
  import opened Ast

  /** Declared identifiers and their types. */
  type SymbolTable = map<string, VarType>

  /** The type slot: unset (`None`), Number or Bool. */
  type Slot = Option<VarType>

  /** The VAR, WHILE, IF and OP counters. */
  datatype Counters = Counters(vars: nat, whiles: nat, ifs: nat, ops: nat)

  const Zero := Counters(0, 0, 0, 0)

  function Plus(a: Counters, b: Counters): Counters
  {
    Counters(a.vars + b.vars, a.whiles + b.whiles, a.ifs + b.ifs, a.ops + b.ops)
  }

  /** What a statement reads and writes. */
  datatype State = State(table: SymbolTable, counters: Counters)

  /** What an expression node leaves behind: the OP counter and the slot. */
  datatype Eval = Eval(ops: nat, slot: Slot)

  /** The semantic errors; each one aborts the pass. */
  datatype SemanticError =
    | MultipleDeclarations(name: string)
    | InvalidTypeInCondition
    | InvalidTypeInAssignment(name: string)
    | InvalidTypeInBool
    | InvalidTypeInComp
    | InvalidTypeInAdd
    | InvalidTypeInMul
    | InvalidTypeInNot

  /** The errors an expression can raise. */
  predicate IsOperandError(e: SemanticError)
  {
    e in {InvalidTypeInBool, InvalidTypeInComp, InvalidTypeInAdd, InvalidTypeInMul, InvalidTypeInNot}
  }

  /** A table lookup; an absent name gives the unset slot. */
  function Lookup(table: SymbolTable, name: string): (t: Slot)
    ensures t.Some? <==> name in table
    ensures t.Some? ==> t.value == table[name]
  {
    if name in table then Some(table[name]) else None
  }

  /** A declared name with its type. */
  datatype Binding = Binding(name: string, vt: VarType)

  function Names(ds: seq<Binding>): set<string>
  {
    set i | 0 <= i < |ds| :: ds[i].name
  }

  /** The bindings name pairwise distinct identifiers, none of them in `table`. */
  predicate FreshBindings(table: SymbolTable, ds: seq<Binding>)
  {
    && (forall i :: 0 <= i < |ds| ==> ds[i].name !in table)
    && (forall i, j :: 0 <= i < j < |ds| ==> ds[i].name != ds[j].name)
  }

  /** `after` is `before` plus exactly the bindings `ds`: every earlier entry is
      kept unchanged and no entry is overwritten. */
  predicate Extends(before: SymbolTable, after: SymbolTable, ds: seq<Binding>)
  {
    && FreshBindings(before, ds)
    && after.Keys == before.Keys + Names(ds)
    && (forall k :: k in before ==> k in after && after[k] == before[k])
    && (forall i :: 0 <= i < |ds| ==> ds[i].name in after && after[ds[i].name] == ds[i].vt)
  }

  lemma NamesAppend(a: seq<Binding>, b: seq<Binding>)
    ensures Names(a + b) == Names(a) + Names(b)
  {
    forall x | x in Names(a) + Names(b)
      ensures x in Names(a + b)
    {
      if x in Names(a) {
        var i :| 0 <= i < |a| && a[i].name == x;
        assert (a + b)[i].name == x;
      } else {
        var i :| 0 <= i < |b| && b[i].name == x;
        assert (a + b)[|a| + i].name == x;
      }
    }
  }

  lemma ExtendsNothing(table: SymbolTable)
    ensures Extends(table, table, [])
  {
    assert Names([]) == {};
  }

  lemma ExtendsOne(table: SymbolTable, name: string, vt: VarType)
    requires name !in table
    ensures Extends(table, table[name := vt], [Binding(name, vt)])
  {
    var ds := [Binding(name, vt)];
    assert ds[0].name == name;
    assert Names(ds) == {name};
  }

  /** Extending by `a` and then by `b` extends by `a + b`. */
  lemma ExtendsCompose(t0: SymbolTable, t1: SymbolTable, t2: SymbolTable, a: seq<Binding>, b: seq<Binding>)
    requires Extends(t0, t1, a)
    requires Extends(t1, t2, b)
    ensures Extends(t0, t2, a + b)
  {
    NamesAppend(a, b);
    var ab := a + b;
    forall i, j | 0 <= i < j < |ab|
      ensures ab[i].name != ab[j].name
    {
      if j < |a| {
        assert ab[i] == a[i] && ab[j] == a[j];
      } else if |a| <= i {
        assert ab[i] == b[i - |a|] && ab[j] == b[j - |a|];
      } else {
        assert ab[i] == a[i] && ab[j] == b[j - |a|];
        assert a[i].name in t1;
      }
    }
    forall i | 0 <= i < |ab|
      ensures ab[i].name !in t0
      ensures ab[i].name in t2 && t2[ab[i].name] == ab[i].vt
    {
      if i < |a| {
        assert ab[i] == a[i];
      } else {
        assert ab[i] == b[i - |a|];
      }
    }
  }
}
