/**
 * What the forms of src/evaluation.c compute, stated against independent
 * definitions: the operand walks against sums, products and quantifiers
 * over the operands' values, `cond` against its first selected clause, and
 * `bindLocals` against the environment it builds.
 *
 * The laws about operand walks assume operands whose evaluation leaves the
 * stores as they were (atoms, quoted data, arithmetic, …); each operand's
 * value is given in a sequence.
 */
module EvaluationLaws {
  import opened Cells
  import opened Numerals
  import opened Primitives
  import opened Environments
  import opened Evaluation

  /** Each operand of the chain from `parent` evaluates, without touching
      the stores, to the wrapper of the corresponding structure in `vs`. */
  predicate OperandsYield(fuel: nat, parent: Option<Cell>, env: Env, st: Globals, vs: seq<Option<Cell>>)
  {
    match parent
    case None => vs == []
    case Some(p) =>
      |Items(p)| == |vs|
      && forall i :: 0 <= i < |vs| ==> Eval(fuel, Items(p)[i], env, st) == Run(Ok(Wrap(vs[i])), st)
  }

  /** Stepping past the first operand. */
  lemma OperandsYieldTail(fuel: nat, p: Cell, env: Env, st: Globals, vs: seq<Option<Cell>>)
    requires OperandsYield(fuel, Some(p), env, st, vs)
    ensures |vs| >= 1 && Eval(fuel, Sub(p), env, st) == Run(Ok(Wrap(vs[0])), st)
    ensures OperandsYield(fuel, Next(p), env, st, vs[1..])
  {
    assert Items(p)[0] == Sub(p);
    match Next(p) {
      case None =>
      case Some(n) =>
        assert Items(p) == [Sub(p)] + Items(n);
        assert forall i :: 0 <= i < |Items(n)| ==> Items(n)[i] == Items(p)[i + 1];
    }
  }

  // ---------------------------------------------------------------------
  // list

  /** `makeList` collects the operands' values, in order. */
  lemma {:induction false} ListLoopCollects(fuel: nat, parent: Option<Cell>, items: seq<Option<Cell>>,
                                             env: Env, st: Globals, vs: seq<Option<Cell>>)
    requires OperandsYield(fuel, parent, env, st, vs)
    ensures ListLoop(fuel, parent, items, env, st) == Run(Ok(Wrap(Some(Chain(items + vs)))), st)
    decreases OSize(parent)
  {
    match parent {
      case None =>
        assert items + vs == items;
      case Some(p) =>
        SubSmaller(p);
        OperandsYieldTail(fuel, p, env, st, vs);
        ListLoopCollects(fuel, Next(p), items + [vs[0]], env, st, vs[1..]);
        assert items + [vs[0]] + vs[1..] == items + vs;
    }
  }

  /** `(list e1 … en)` is the chain of the n values; with no operands it
      is the fresh empty cell `makeList` starts from. */
  lemma ListFormMeaning(fuel: nat, cell: Cell, env: Env, st: Globals, vs: seq<Option<Cell>>)
    requires OperandsYield(fuel, Next(cell), env, st, vs)
    ensures EvalForm(fuel, ListForm, cell, env, st) == Run(Ok(Wrap(Some(Chain(vs)))), st)
    ensures |vs| == 0 ==> Chain(vs) == IniCell()
    ensures |vs| >= 1 ==> Items(Chain(vs)) == vs
  {
    ListLoopCollects(fuel, Next(cell), [], env, st, vs);
    assert [] + vs == vs;
    if |vs| >= 1 {
      ItemsOfChain(vs);
    }
  }

  // ---------------------------------------------------------------------
  // if

  /** `alternateIf`: a failed condition is passed on; otherwise the
      then-branch exactly when the condition yields the TRUE sentinel and
      the else-branch on any other structure, evaluated against the stores
      the condition left; the NULL wrapper of a `define` as condition is
      undefined. */
  lemma IfMeaning(fuel: nat, cell: Cell, env: Env, st: Globals)
    ensures var c := EvalOperand(fuel, cell, 1, env, st);
            !c.res.Ok? ==> EvalForm(fuel, IfForm, cell, env, st) == c
    ensures var c := EvalOperand(fuel, cell, 1, env, st);
            c.res == Ok(NullList) ==> EvalForm(fuel, IfForm, cell, env, st) == Run(Undefined, c.st)
    ensures var c := EvalOperand(fuel, cell, 1, env, st);
            c.res == Ok(Wrap(Some(TrueCell))) ==> EvalForm(fuel, IfForm, cell, env, st) == EvalOperand(fuel, cell, 2, env, c.st)
    ensures var c := EvalOperand(fuel, cell, 1, env, st);
            c.res.Ok? && c.res.value.Wrap? && c.res.value.structure != Some(TrueCell)
            ==> EvalForm(fuel, IfForm, cell, env, st) == EvalOperand(fuel, cell, 3, env, c.st)
  {
  }

  // ---------------------------------------------------------------------
  // Comparisons

  /** The comparisons compare the numbers `atoi` reads from the labels of
      the two operands; an operand without a label is undefined. */
  lemma CompareFormMeaning(fuel: nat, cmp: Comparison, cell: Cell, env: Env,
                           st: Globals, st1: Globals, st2: Globals, u: ListRef, v: ListRef)
    requires EvalOperand(fuel, cell, 1, env, st) == Run(Ok(u), st1)
    requires EvalOperand(fuel, cell, 2, env, st1) == Run(Ok(v), st2)
    ensures AtomLabel(u).Ok? && AtomLabel(v).Ok? ==>
              EvalForm(fuel, BinaryForm(CompareOp(cmp)), cell, env, st)
              == Run(Ok(Wrap(Some(Compare(cmp, Atoi(AtomLabel(u).value), Atoi(AtomLabel(v).value))))), st2)
    ensures !(AtomLabel(u).Ok? && AtomLabel(v).Ok?) ==>
              EvalForm(fuel, BinaryForm(CompareOp(cmp)), cell, env, st) == Run(Undefined, st2)
  {
    BinaryFormMeaning(fuel, CompareOp(cmp), cell, env, st, st1, st2, u, v);
  }

  /** A two-operand primitive evaluates its operands left to right, the
      second against the stores the first left, and is applied to both. */
  lemma BinaryFormMeaning(fuel: nat, op: BinaryOp, cell: Cell, env: Env,
                          st: Globals, st1: Globals, st2: Globals, u: ListRef, v: ListRef)
    requires EvalOperand(fuel, cell, 1, env, st) == Run(Ok(u), st1)
    requires EvalOperand(fuel, cell, 2, env, st1) == Run(Ok(v), st2)
    ensures EvalForm(fuel, BinaryForm(op), cell, env, st) == Run(ApplyBinary(op, u, v), st2)
  {
  }

  /** On two printed numbers, `(< a b)` and the rest answer TRUE exactly
      when the numbers stand in that relation. */
  lemma CompareNumerals(fuel: nat, cmp: Comparison, cell: Cell, env: Env,
                        st: Globals, st1: Globals, st2: Globals, x: int, y: int)
    requires EvalOperand(fuel, cell, 1, env, st) == Run(Ok(Wrap(Some(Leaf(IntToString(x))))), st1)
    requires EvalOperand(fuel, cell, 2, env, st1) == Run(Ok(Wrap(Some(Leaf(IntToString(y))))), st2)
    ensures EvalForm(fuel, BinaryForm(CompareOp(cmp)), cell, env, st) == Run(Ok(Wrap(Some(Compare(cmp, x, y)))), st2)
  {
    CompareFormMeaning(fuel, cmp, cell, env, st, st1, st2,
                       Wrap(Some(Leaf(IntToString(x)))), Wrap(Some(Leaf(IntToString(y)))));
    AtoiOfIntToString(x);
    AtoiOfIntToString(y);
  }

  // ---------------------------------------------------------------------
  // and, or

  lemma {:induction false} AndLoopMeaning(fuel: nat, parent: Option<Cell>, env: Env, st: Globals, vs: seq<Option<Cell>>)
    requires OperandsYield(fuel, parent, env, st, vs)
    ensures AndLoop(fuel, parent, env, st)
            == Run(Ok(Wrap(Some(Truth(forall i :: 0 <= i < |vs| ==> vs[i] != Some(FalseCell))))), st)
    decreases OSize(parent)
  {
    match parent {
      case None =>
      case Some(p) =>
        SubSmaller(p);
        OperandsYieldTail(fuel, p, env, st, vs);
        if vs[0] != Some(FalseCell) {
          AndLoopMeaning(fuel, Next(p), env, st, vs[1..]);
          assert (forall i :: 0 <= i < |vs| ==> vs[i] != Some(FalseCell))
                 <==> (forall i :: 0 <= i < |vs[1..]| ==> vs[1..][i] != Some(FalseCell));
        }
    }
  }

  lemma {:induction false} OrLoopMeaning(fuel: nat, parent: Option<Cell>, env: Env, st: Globals, vs: seq<Option<Cell>>)
    requires OperandsYield(fuel, parent, env, st, vs)
    ensures OrLoop(fuel, parent, env, st)
            == Run(Ok(Wrap(Some(Truth(exists i :: 0 <= i < |vs| && vs[i] == Some(TrueCell))))), st)
    decreases OSize(parent)
  {
    match parent {
      case None =>
      case Some(p) =>
        SubSmaller(p);
        OperandsYieldTail(fuel, p, env, st, vs);
        if vs[0] != Some(TrueCell) {
          OrLoopMeaning(fuel, Next(p), env, st, vs[1..]);
          assert (exists i :: 0 <= i < |vs| && vs[i] == Some(TrueCell))
                 <==> (exists i :: 0 <= i < |vs[1..]| && vs[1..][i] == Some(TrueCell));
        }
    }
  }

  /** `and` answers FALSE at the first operand that yields the FALSE
      sentinel; the operands after it are never evaluated, so nothing is
      asked of them. */
  lemma {:induction false} AndStopsAtFirstFalse(fuel: nat, p: Cell, env: Env, st: Globals,
                                                st2: Globals, vs: seq<Option<Cell>>)
    requires |vs| < |Items(p)|
    requires forall j :: 0 <= j < |vs| ==>
               vs[j] != Some(FalseCell) && Eval(fuel, Items(p)[j], env, st) == Run(Ok(Wrap(vs[j])), st)
    requires Eval(fuel, Items(p)[|vs|], env, st) == Run(Ok(Wrap(Some(FalseCell))), st2)
    ensures AndLoop(fuel, Some(p), env, st) == Run(Ok(Wrap(Some(FalseCell))), st2)
    decreases Size(p)
  {
    SubSmaller(p);
    assert Items(p)[0] == Sub(p);
    if |vs| > 0 {
      var n := Next(p).value;
      assert Items(p) == [Sub(p)] + Items(n);
      assert forall j :: 0 <= j < |Items(n)| ==> Items(n)[j] == Items(p)[j + 1];
      AndStopsAtFirstFalse(fuel, n, env, st, st2, vs[1..]);
    }
  }

  /** `or` answers TRUE at the first operand that yields the TRUE sentinel;
      the operands after it are never evaluated. */
  lemma {:induction false} OrStopsAtFirstTrue(fuel: nat, p: Cell, env: Env, st: Globals,
                                              st2: Globals, vs: seq<Option<Cell>>)
    requires |vs| < |Items(p)|
    requires forall j :: 0 <= j < |vs| ==>
               vs[j] != Some(TrueCell) && Eval(fuel, Items(p)[j], env, st) == Run(Ok(Wrap(vs[j])), st)
    requires Eval(fuel, Items(p)[|vs|], env, st) == Run(Ok(Wrap(Some(TrueCell))), st2)
    ensures OrLoop(fuel, Some(p), env, st) == Run(Ok(Wrap(Some(TrueCell))), st2)
    decreases Size(p)
  {
    SubSmaller(p);
    assert Items(p)[0] == Sub(p);
    if |vs| > 0 {
      var n := Next(p).value;
      assert Items(p) == [Sub(p)] + Items(n);
      assert forall j :: 0 <= j < |Items(n)| ==> Items(n)[j] == Items(p)[j + 1];
      OrStopsAtFirstTrue(fuel, n, env, st, st2, vs[1..]);
    }
  }

  // ---------------------------------------------------------------------
  // +, -, *

  predicate AllAtoms(vs: seq<Option<Cell>>)
  {
    forall i :: 0 <= i < |vs| ==> vs[i].Some? && Sym(vs[i].value).Some?
  }

  /** The integers `atoi` reads from the operands' labels. */
  function Numbers(vs: seq<Option<Cell>>): (ns: seq<int>)
    requires AllAtoms(vs)
    ensures |ns| == |vs|
  {
    if |vs| == 0 then [] else [Atoi(Sym(vs[0].value).value)] + Numbers(vs[1..])
  }

  function Sum(ns: seq<int>): int
  {
    if |ns| == 0 then 0 else ns[0] + Sum(ns[1..])
  }

  function Product(ns: seq<int>): int
  {
    if |ns| == 0 then 1 else ns[0] * Product(ns[1..])
  }

  /** What the accumulator holds after folding `ns` into `acc`. */
  function Total(op: ArithOp, acc: int, ns: seq<int>): int
  {
    match op
    case Plus => acc + Sum(ns)
    case Minus => acc - Sum(ns)
    case Times => acc * Product(ns)
  }

  lemma TotalStep(op: ArithOp, acc: int, ns: seq<int>)
    requires |ns| >= 1
    ensures Total(op, Apply(op, acc, ns[0]), ns[1..]) == Total(op, acc, ns)
  {
    if op == Times {
      assert acc * ns[0] * Product(ns[1..]) == acc * (ns[0] * Product(ns[1..]));
    }
  }

  lemma AllAtomsTail(vs: seq<Option<Cell>>)
    requires |vs| >= 1 && AllAtoms(vs)
    ensures AllAtoms(vs[1..]) && Numbers(vs) == [Atoi(Sym(vs[0].value).value)] + Numbers(vs[1..])
  {
    forall i | 0 <= i < |vs[1..]| ensures vs[1..][i].Some? && Sym(vs[1..][i].value).Some? {
      assert vs[1..][i] == vs[i + 1];
    }
  }

  /** The accumulator loop adds, subtracts or multiplies in every operand. */
  lemma {:induction false} ArithLoopMeaning(fuel: nat, op: ArithOp, parent: Option<Cell>, acc: int,
                                             env: Env, st: Globals, vs: seq<Option<Cell>>)
    requires OperandsYield(fuel, parent, env, st, vs) && AllAtoms(vs)
    ensures ArithLoop(fuel, op, parent, acc, env, st)
            == Run(Ok(Wrap(Some(Leaf(IntToString(Total(op, acc, Numbers(vs))))))), st)
    decreases OSize(parent)
  {
    match parent {
      case None =>
      case Some(p) =>
        SubSmaller(p);
        OperandsYieldTail(fuel, p, env, st, vs);
        AllAtomsTail(vs);
        var n := Atoi(Sym(vs[0].value).value);
        assert AtomLabel(Wrap(vs[0])) == Ok(Sym(vs[0].value).value);
        assert ArithLoop(fuel, op, parent, acc, env, st)
               == ArithLoop(fuel, op, Next(p), Apply(op, acc, n), env, st);
        ArithLoopMeaning(fuel, op, Next(p), Apply(op, acc, n), env, st, vs[1..]);
        TotalStep(op, acc, Numbers(vs));
    }
  }

  /** The number `(+ …)`, `(- …)` or `(* …)` stands for: the sum, the
      first operand less the sum of the rest, the product. */
  function ArithValue(op: ArithOp, ns: seq<int>): int
    requires op == Minus ==> |ns| >= 1
  {
    match op
    case Plus => Sum(ns)
    case Times => Product(ns)
    case Minus => ns[0] - Sum(ns[1..])
  }

  /** `subtract` starts from the first operand and takes off the rest. */
  lemma SubtractMeaning(fuel: nat, cell: Cell, env: Env, st: Globals, vs: seq<Option<Cell>>)
    requires OperandsYield(fuel, Next(cell), env, st, vs) && AllAtoms(vs) && |vs| >= 1
    ensures EvalSubtract(fuel, cell, env, st)
            == Run(Ok(Wrap(Some(Leaf(IntToString(ArithValue(Minus, Numbers(vs))))))), st)
  {
    var p := Next(cell).value;
    OperandsYieldTail(fuel, p, env, st, vs);
    AllAtomsTail(vs);
    SubtractStart(fuel, cell, env, st, vs[0].value);
    ArithLoopMeaning(fuel, Minus, Next(p), Atoi(Sym(vs[0].value).value), env, st, vs[1..]);
  }

  /** `subtract` reads the first operand's label as the starting value. */
  lemma SubtractStart(fuel: nat, cell: Cell, env: Env, st: Globals, first: Cell)
    requires Next(cell).Some? && Sym(first).Some?
    requires Eval(fuel, Sub(Next(cell).value), env, st) == Run(Ok(Wrap(Some(first))), st)
    ensures EvalSubtract(fuel, cell, env, st)
            == ArithLoop(fuel, Minus, Next(Next(cell).value), Atoi(Sym(first).value), env, st)
  {
    assert AtomLabel(Wrap(Some(first))) == Ok(Sym(first).value);
  }

  /** `(+ e1 … en)` yields the numeral of the sum, which reads back as the
      sum; `(* …)` likewise with the product; `(- e1 e2 … en)` subtracts the
      rest from the first. */
  lemma ArithFormMeaning(fuel: nat, op: ArithOp, cell: Cell, env: Env, st: Globals, vs: seq<Option<Cell>>)
    requires OperandsYield(fuel, Next(cell), env, st, vs) && AllAtoms(vs)
    requires op == Minus ==> |vs| >= 1
    ensures EvalForm(fuel, ArithForm(op), cell, env, st)
            == Run(Ok(Wrap(Some(Leaf(IntToString(ArithValue(op, Numbers(vs))))))), st)
    ensures Atoi(IntToString(ArithValue(op, Numbers(vs)))) == ArithValue(op, Numbers(vs))
  {
    AtoiOfIntToString(ArithValue(op, Numbers(vs)));
    ArithDispatch(fuel, op, cell, env, st);
    if op == Minus {
      SubtractMeaning(fuel, cell, env, st, vs);
    } else {
      ArithLoopMeaning(fuel, op, Next(cell), if op == Plus then 0 else 1, env, st, vs);
    }
  }

  /** The arithmetic keywords select `subtract` or an accumulator loop. */
  lemma ArithDispatch(fuel: nat, op: ArithOp, cell: Cell, env: Env, st: Globals)
    ensures EvalForm(fuel, ArithForm(op), cell, env, st)
            == if op == Minus then EvalSubtract(fuel, cell, env, st)
               else ArithLoop(fuel, op, Next(cell), if op == Plus then 0 else 1, env, st)
  {
  }

  // ---------------------------------------------------------------------
  // cond

  function Clause(pp: Cell, j: nat): Cell
    requires j < |Items(pp)| && Items(pp)[j].Some?
  {
    Items(pp)[j].value
  }

  /** A clause that is passed over: not an `else` clause, and its test
      yields something other than the TRUE sentinel. */
  predicate PassesOver(fuel: nat, clause: Cell, env: Env, st: Globals)
  {
    var test := Eval(fuel, Sub(clause), env, st);
    !IsElseClause(clause) && test.st == st
    && test.res.Ok? && test.res.value.Wrap? && test.res.value.structure != Some(TrueCell)
  }

  /** A clause that is taken: an `else` clause, or one whose test yields
      the TRUE sentinel. */
  predicate Selects(fuel: nat, clause: Cell, env: Env, st: Globals)
  {
    IsElseClause(clause) || Eval(fuel, Sub(clause), env, st) == Run(Ok(Wrap(Some(TrueCell))), st)
  }

  /** `cond` evaluates the body of the first clause it takes. */
  lemma {:induction false} CondFirstMatch(fuel: nat, pp: Cell, env: Env, st: Globals, k: nat)
    requires k < |Items(pp)| && forall j :: 0 <= j <= k ==> Items(pp)[j].Some?
    requires forall j :: 0 <= j < k ==> PassesOver(fuel, Clause(pp, j), env, st)
    requires Selects(fuel, Clause(pp, k), env, st)
    ensures CondLoop(fuel, Some(pp), env, st) == EvalOperand(fuel, Clause(pp, k), 1, env, st)
    decreases Size(pp)
  {
    SubSmaller(pp);
    assert Items(pp)[0] == Sub(pp);
    if k > 0 {
      var n := Next(pp).value;
      assert Items(pp) == [Sub(pp)] + Items(n);
      assert forall j :: 0 <= j < |Items(n)| ==> Items(n)[j] == Items(pp)[j + 1];
      assert PassesOver(fuel, Clause(pp, 0), env, st);
      assert forall j :: 0 <= j < k ==> Clause(n, j) == Clause(pp, j + 1);
      CondFirstMatch(fuel, n, env, st, k - 1);
    }
  }

  /** `cond` with no clause taken yields the FALSE sentinel. */
  lemma {:induction false} CondNoMatch(fuel: nat, pp: Cell, env: Env, st: Globals)
    requires forall j :: 0 <= j < |Items(pp)| ==> Items(pp)[j].Some?
    requires forall j :: 0 <= j < |Items(pp)| ==> PassesOver(fuel, Clause(pp, j), env, st)
    ensures CondLoop(fuel, Some(pp), env, st) == Run(Ok(Wrap(Some(FalseCell))), st)
    decreases Size(pp)
  {
    SubSmaller(pp);
    assert Items(pp)[0] == Sub(pp);
    assert PassesOver(fuel, Clause(pp, 0), env, st);
    if Next(pp).Some? {
      var n := Next(pp).value;
      assert Items(pp) == [Sub(pp)] + Items(n);
      assert forall j :: 0 <= j < |Items(n)| ==> Items(n)[j] == Items(pp)[j + 1];
      assert forall j :: 0 <= j < |Items(n)| ==> Clause(n, j) == Clause(pp, j + 1);
      CondNoMatch(fuel, n, env, st);
    }
  }

  // ---------------------------------------------------------------------
  // bindLocals and calls

  /** The entries `bindLocals` adds, newest (last formal) first. */
  function NewestFirst(fs: seq<Option<Cell>>, vs: seq<Option<Cell>>): (r: seq<Option<Cell>>)
    requires |fs| == |vs|
    ensures |r| == |fs|
  {
    seq(|fs|, i requires 0 <= i < |fs| => Some(Binding(fs[|fs| - 1 - i], vs[|fs| - 1 - i])))
  }

  lemma NewestFirstStep(fs: seq<Option<Cell>>, vs: seq<Option<Cell>>)
    requires |fs| == |vs| >= 1
    ensures NewestFirst(fs, vs) == NewestFirst(fs[1..], vs[1..]) + [Some(Binding(fs[0], vs[0]))]
  {
    var a := NewestFirst(fs, vs);
    var b := NewestFirst(fs[1..], vs[1..]) + [Some(Binding(fs[0], vs[0]))];
    assert |a| == |b|;
    forall i | 0 <= i < |a| ensures a[i] == b[i] {
      if i < |fs| - 1 {
        assert fs[1..][|fs| - 2 - i] == fs[|fs| - 1 - i];
        assert vs[1..][|fs| - 2 - i] == vs[|fs| - 1 - i];
      }
    }
  }

  lemma ConcatAssoc<T>(a: seq<T>, b: seq<T>, c: seq<T>)
    ensures a + (b + c) == (a + b) + c
  {
  }

  /** One step of `bindLocals`: the first formal is bound to the first
      actual's value. */
  lemma BindStep(fuel: nat, focus: Cell, param: Cell, local: Cell, env: Env, st: Globals, v: Option<Cell>)
    requires Eval(fuel, Sub(param), env, st) == Run(Ok(Wrap(v)), st)
    ensures BindLoop(fuel, Some(focus), Some(param), local, env, st)
            == BindLoop(fuel, Next(focus), Next(param), Define(Sub(focus), v, local), env, st)
  {
  }

  /** `bindLocals` binds each formal, in order, to the value of the
      corresponding actual, in front of the environment it started with;
      surplus actuals are ignored. */
  lemma {:induction false} BindLoopBinds(fuel: nat, focus: Cell, param: Cell, local: Cell,
                                          env: Env, st: Globals, vs: seq<Option<Cell>>)
    requires IsEnv(local)
    requires |vs| == |Items(focus)| <= |Items(param)|
    requires forall i :: 0 <= i < |vs| ==> Eval(fuel, Items(param)[i], env, st) == Run(Ok(Wrap(vs[i])), st)
    ensures var r := BindLoop(fuel, Some(focus), Some(param), local, env, st);
            r.st == st && r.res.Ok? && IsEnv(r.res.value)
            && Items(r.res.value) == NewestFirst(Items(focus), vs) + Items(local)
    decreases Size(focus)
  {
    SubSmaller(focus);
    assert Items(param)[0] == Sub(param);
    var next := Define(Sub(focus), vs[0], local);
    DefinePrepends(Sub(focus), vs[0], local);
    BindStep(fuel, focus, param, local, env, st, vs[0]);
    var fs := Items(focus);
    NewestFirstStep(fs, vs);
    if Next(focus).None? {
      assert fs == [Sub(focus)];
      assert NewestFirst(fs, vs) == [Some(Binding(fs[0], vs[0]))];
    } else {
      var f := Next(focus).value;
      var a := Next(param).value;
      assert fs == [Sub(focus)] + Items(f);
      assert Items(param) == [Sub(param)] + Items(a);
      assert forall i :: 0 <= i < |Items(a)| ==> Items(a)[i] == Items(param)[i + 1];
      BindLoopBinds(fuel, f, a, next, env, st, vs[1..]);
      assert fs[1..] == Items(f);
      var b := [Some(Binding(fs[0], vs[0]))];
      var older := NewestFirst(fs[1..], vs[1..]);
      assert Items(next) == b + Items(local);
      ConcatAssoc(older, b, Items(local));
    }
  }

  /** A call of a stored function evaluates the stored body in a fresh
      environment that holds exactly the bindings of the formals to the
      values of the actuals. */
  lemma CallEvaluatesBody(fuel: nat, cell: Cell, env: Env, st: Globals, p: Cell, vs: seq<Option<Cell>>)
    requires AssocForFn(cell, st.fns) == Ok(Function(p)) && Sub(p).Some?
    requires |vs| == |Items(Cdr(Sub(p).value))| <= |Items(Cdr(cell))|
    requires forall i :: 0 <= i < |vs| ==> Eval(fuel, Items(Cdr(cell))[i], env, st) == Run(Ok(Wrap(vs[i])), st)
    ensures exists local: Cell ::
              Items(local) == NewestFirst(Items(Cdr(Sub(p).value)), vs) + [None]
              && CallOrLookup(fuel, cell, env, st) == Eval(fuel, Cadr(p), Env(local, Local), st)
  {
    EmptyEnvironment();
    BindLoopBinds(fuel, Cdr(Sub(p).value), Cdr(cell), IniAssocList(), env, st, vs);
    var b := BindLoop(fuel, Some(Cdr(Sub(p).value)), Some(Cdr(cell)), IniAssocList(), env, st);
    assert CallOrLookup(fuel, cell, env, st) == Eval(fuel, Cadr(p), Env(b.res.value, Local), st);
  }
}
