/**
 * The evaluator of src/evaluation.c in its own imperative form: the two
 * global stores are fields of an `Interpreter`, `define` and
 * `defineFunction` reassign them, and the operand walks are loops. Every
 * method is proved to compute what the functions of module Evaluation
 * describe, from the stores it started with to the stores it leaves.
 */
module Session {
  import opened Cells
  import opened Numerals
  import opened Primitives
  import opened Environments
  import opened Evaluation

  class Interpreter {
    /** `mAssocVars`, and the number of times it has been republished. */
    var vars: Cell
    var varsGen: nat
    /** `mAssocFns`. */
    var fns: Cell

    function Snapshot(): Globals
      reads this
    {
      Globals(vars, varsGen, fns)
    }

    /** `setupGlobals`. */
    constructor ()
      ensures Snapshot() == InitialGlobals()
    {
      vars := IniAssocList();
      varsGen := 0;
      fns := IniAssocList();
    }

    /** `eval`: evaluate a parsed expression against the global store. */
    method Eval(fuel: nat, expr: Cell) returns (r: Result<ListRef>)
      modifies this
      ensures Run(r, Snapshot()) == EvalTop(fuel, expr, old(Snapshot()))
    {
      r := RecurseEval(fuel, Some(expr), Env(vars, Global(varsGen)));
    }

    /** `recurse_eval`. */
    method RecurseEval(fuel: nat, cell: Option<Cell>, env: Env) returns (r: Result<ListRef>)
      modifies this
      ensures Run(r, Snapshot()) == Evaluation.Eval(fuel, cell, env, old(Snapshot()))
      decreases fuel, 0, 0
    {
      if fuel == 0 {
        return OutOfFuel;
      }
      if cell.None? {
        return Undefined;
      }
      var c := cell.value;
      var f := fuel - 1;
      assert Evaluation.Eval(fuel, cell, env, Snapshot()) == Dispatch(f, c, env, Snapshot());
      if Sub(c).Some? {
        var head := Sub(c).value;
        if Sym(head).None? {
          // Drop a level: evaluate the element, then the rest of the chain.
          var inner := RecurseEval(f, Some(head), env);
          if !inner.Ok? {
            return inner;
          }
          r := RecurseRight(f, c, env);
        } else {
          var form := KeywordForm(Sym(head).value);
          if form.Some? {
            r := Keyword(f, form.value, c, env);
          } else {
            // An atom below that is no keyword.
            r := RecurseRight(f, c, env);
            if r.Ok? {
              r := CallOrLookup(f, c, env);
            }
          }
        }
      } else if Sym(c).Some? {
        r := AssocForVar(c, env.chain);
      } else {
        r := RecurseRight(f, c, env);
      }
    }

    /** The operand `cell->mNext->…->mSub`, evaluated. */
    method OperandValue(fuel: nat, cell: Cell, i: nat, env: Env) returns (r: Result<ListRef>)
      modifies this
      ensures Run(r, Snapshot()) == EvalOperand(fuel, cell, i, env, old(Snapshot()))
      decreases fuel, 0, 1
    {
      var o := Operand(cell, i);
      if !o.Ok? {
        return Undefined;
      }
      r := RecurseEval(fuel, o.value, env);
    }

    /** Recurse right, then retarget the returned wrapper at `cell`. */
    method RecurseRight(fuel: nat, cell: Cell, env: Env) returns (r: Result<ListRef>)
      modifies this
      ensures Run(r, Snapshot()) == EvalRight(fuel, cell, env, old(Snapshot()))
      decreases fuel, 1, 0
    {
      if Next(cell).None? {
        return Ok(Wrap(Some(cell)));
      }
      var list := RecurseEval(fuel, Next(cell), env);
      if !list.Ok? {
        return list;
      }
      if list.value.NullList? {
        return Undefined;
      }
      r := Ok(Wrap(Some(cell)));
    }

    /** The keyword branches of `recurse_eval`. */
    method Keyword(fuel: nat, form: Form, cell: Cell, env: Env) returns (r: Result<ListRef>)
      modifies this
      ensures Run(r, Snapshot()) == EvalForm(fuel, form, cell, env, old(Snapshot()))
      decreases fuel, 3, 0
    {
      match form {
        case QuoteForm =>
          if Next(cell).None? || Sub(Next(cell).value).None? {
            r := Undefined;
          } else {
            r := Ok(Wrap(Sub(Next(cell).value)));
          }
        case ListForm => r := MakeList(fuel, cell, env);
        case UnaryForm(op) => r := UnaryCall(fuel, op, cell, env);
        case BinaryForm(op) => r := BinaryCall(fuel, op, cell, env);
        case ArithForm(op) =>
          if op == Plus {
            r := Add(fuel, cell, env);
          } else if op == Minus {
            r := Subtract(fuel, cell, env);
          } else {
            r := Multiply(fuel, cell, env);
          }
        case AndForm => r := LogicAnd(fuel, cell, env);
        case OrForm => r := LogicOr(fuel, cell, env);
        case CondForm => r := Cond(fuel, cell, env);
        case IfForm => r := AlternateIf(fuel, cell, env);
        case DefineForm => r := DefineForm(fuel, cell, env);
        case AssocForm => r := AssocForm(fuel, cell, env);
      }
    }

    /** A one-operand primitive; `last`, `length` and `number?` run their
        loops. */
    method UnaryCall(fuel: nat, op: UnaryOp, cell: Cell, env: Env) returns (r: Result<ListRef>)
      modifies this
      ensures Run(r, Snapshot()) == EvalForm(fuel, UnaryForm(op), cell, env, old(Snapshot()))
      decreases fuel, 2, 0
    {
      var a := OperandValue(fuel, cell, 1, env);
      if !a.Ok? {
        return a;
      }
      var v := a.value;
      if v.Wrap? && op == LastOp {
        var x := Last(v.structure);
        r := if x.Ok? then Ok(Wrap(x.value)) else Undefined;
      } else if v.Wrap? && op == LengthOp {
        var x := Length(v.structure);
        r := if x.Ok? then Ok(Wrap(Some(x.value))) else Undefined;
      } else if v.Wrap? && op == NumberOp {
        var x := IsNumber(v.structure);
        r := if x.Ok? then Ok(Wrap(Some(x.value))) else Undefined;
      } else {
        r := ApplyUnary(op, v);
      }
    }

    /** A two-operand primitive; the operands are evaluated left to right. */
    method BinaryCall(fuel: nat, op: BinaryOp, cell: Cell, env: Env) returns (r: Result<ListRef>)
      modifies this
      ensures Run(r, Snapshot()) == EvalForm(fuel, BinaryForm(op), cell, env, old(Snapshot()))
      decreases fuel, 2, 0
    {
      var a := OperandValue(fuel, cell, 1, env);
      if !a.Ok? {
        return a;
      }
      var b := OperandValue(fuel, cell, 2, env);
      if !b.Ok? {
        return b;
      }
      r := ApplyBinary(op, a.value, b.value);
    }

    /** `makeList`. */
    method MakeList(fuel: nat, cell: Cell, env: Env) returns (r: Result<ListRef>)
      modifies this
      ensures Run(r, Snapshot()) == ListLoop(fuel, Next(cell), [], env, old(Snapshot()))
      decreases fuel, 1, 0
    {
      var parent := Next(cell);
      var items: seq<Option<Cell>> := [];
      while parent.Some?
        invariant ListLoop(fuel, parent, items, env, Snapshot())
                  == ListLoop(fuel, Next(cell), [], env, old(Snapshot()))
        decreases OSize(parent)
      {
        var p := parent.value;
        SubSmaller(p);
        var toJoin := RecurseEval(fuel, Sub(p), env);
        if !toJoin.Ok? {
          return toJoin;
        }
        if toJoin.value.NullList? {
          return Undefined;
        }
        items := items + [toJoin.value.structure];
        parent := Next(p);
      }
      r := Ok(Wrap(Some(Chain(items))));
    }

    /** `add`. */
    method Add(fuel: nat, cell: Cell, env: Env) returns (r: Result<ListRef>)
      modifies this
      ensures Run(r, Snapshot()) == ArithLoop(fuel, Plus, Next(cell), 0, env, old(Snapshot()))
      decreases fuel, 1, 0
    {
      var parent := Next(cell);
      var sum := 0;
      while parent.Some?
        invariant ArithLoop(fuel, Plus, parent, sum, env, Snapshot())
                  == ArithLoop(fuel, Plus, Next(cell), 0, env, old(Snapshot()))
        decreases OSize(parent)
      {
        var p := parent.value;
        SubSmaller(p);
        ghost var before := Snapshot();
        ArithLoopStep(fuel, Plus, p, sum, env, before);
        var member := RecurseEval(fuel, Sub(p), env);
        ghost var v := Evaluation.Eval(fuel, Sub(p), env, before);
        assert v == Run(member, Snapshot());
        if !member.Ok? {
          return member;
        }
        var l := AtomLabel(member.value);
        if !l.Ok? {
          return Undefined;
        }
        var n := Atoi(l.value);
        assert Apply(Plus, sum, n) == sum + n;
        assert ArithLoop(fuel, Plus, parent, sum, env, before)
               == ArithLoop(fuel, Plus, Next(p), sum + n, env, Snapshot());
        sum := sum + n;
        parent := Next(p);
      }
      r := Ok(Wrap(Some(Leaf(IntToString(sum)))));
    }

    /** `subtract`. */
    method Subtract(fuel: nat, cell: Cell, env: Env) returns (r: Result<ListRef>)
      modifies this
      ensures Run(r, Snapshot()) == EvalSubtract(fuel, cell, env, old(Snapshot()))
      decreases fuel, 1, 0
    {
      if Next(cell).None? {
        return Undefined;
      }
      var parent := Next(cell).value;
      SubSmaller(parent);
      ghost var start := Snapshot();
      var firstNum := RecurseEval(fuel, Sub(parent), env);
      ghost var first := Evaluation.Eval(fuel, Sub(parent), env, start);
      assert first == Run(firstNum, Snapshot());
      if !firstNum.Ok? {
        return firstNum;
      }
      var l := AtomLabel(firstNum.value);
      if !l.Ok? {
        return Undefined;
      }
      var difference := Atoi(l.value);
      var rest := Next(parent);
      assert EvalSubtract(fuel, cell, env, start)
             == ArithLoop(fuel, Minus, rest, difference, env, first.st);
      while rest.Some?
        invariant ArithLoop(fuel, Minus, rest, difference, env, Snapshot())
                  == EvalSubtract(fuel, cell, env, old(Snapshot()))
        decreases OSize(rest)
      {
        var p := rest.value;
        SubSmaller(p);
        ghost var before := Snapshot();
        ArithLoopStep(fuel, Minus, p, difference, env, before);
        var member := RecurseEval(fuel, Sub(p), env);
        ghost var v := Evaluation.Eval(fuel, Sub(p), env, before);
        assert v == Run(member, Snapshot());
        if !member.Ok? {
          return member;
        }
        var m := AtomLabel(member.value);
        if !m.Ok? {
          return Undefined;
        }
        var n := Atoi(m.value);
        assert Apply(Minus, difference, n) == difference - n;
        assert ArithLoop(fuel, Minus, rest, difference, env, before)
               == ArithLoop(fuel, Minus, Next(p), difference - n, env, Snapshot());
        difference := difference - n;
        rest := Next(p);
      }
      r := Ok(Wrap(Some(Leaf(IntToString(difference)))));
    }

    /** `multiply`. */
    method Multiply(fuel: nat, cell: Cell, env: Env) returns (r: Result<ListRef>)
      modifies this
      ensures Run(r, Snapshot()) == ArithLoop(fuel, Times, Next(cell), 1, env, old(Snapshot()))
      decreases fuel, 1, 0
    {
      var parent := Next(cell);
      var product := 1;
      while parent.Some?
        invariant ArithLoop(fuel, Times, parent, product, env, Snapshot())
                  == ArithLoop(fuel, Times, Next(cell), 1, env, old(Snapshot()))
        decreases OSize(parent)
      {
        var p := parent.value;
        SubSmaller(p);
        ghost var before := Snapshot();
        ArithLoopStep(fuel, Times, p, product, env, before);
        var member := RecurseEval(fuel, Sub(p), env);
        ghost var v := Evaluation.Eval(fuel, Sub(p), env, before);
        assert v == Run(member, Snapshot());
        if !member.Ok? {
          return member;
        }
        var l := AtomLabel(member.value);
        if !l.Ok? {
          return Undefined;
        }
        var n := Atoi(l.value);
        assert Apply(Times, product, n) == product * n;
        assert ArithLoop(fuel, Times, parent, product, env, before)
               == ArithLoop(fuel, Times, Next(p), product * n, env, Snapshot());
        product := product * n;
        parent := Next(p);
      }
      r := Ok(Wrap(Some(Leaf(IntToString(product)))));
    }

    /** `logicAnd`. */
    method LogicAnd(fuel: nat, cell: Cell, env: Env) returns (r: Result<ListRef>)
      modifies this
      ensures Run(r, Snapshot()) == AndLoop(fuel, Next(cell), env, old(Snapshot()))
      decreases fuel, 1, 0
    {
      var parent := Next(cell);
      while parent.Some?
        invariant AndLoop(fuel, parent, env, Snapshot()) == AndLoop(fuel, Next(cell), env, old(Snapshot()))
        decreases OSize(parent)
      {
        var p := parent.value;
        SubSmaller(p);
        var resolution := RecurseEval(fuel, Sub(p), env);
        if !resolution.Ok? {
          return resolution;
        }
        if resolution.value.NullList? {
          return Undefined;
        }
        if resolution.value.structure == Some(FalseCell) {
          return Ok(Wrap(Some(FalseCell)));
        }
        parent := Next(p);
      }
      r := Ok(Wrap(Some(TrueCell)));
    }

    /** `logicOr`. */
    method LogicOr(fuel: nat, cell: Cell, env: Env) returns (r: Result<ListRef>)
      modifies this
      ensures Run(r, Snapshot()) == OrLoop(fuel, Next(cell), env, old(Snapshot()))
      decreases fuel, 1, 0
    {
      var parent := Next(cell);
      while parent.Some?
        invariant OrLoop(fuel, parent, env, Snapshot()) == OrLoop(fuel, Next(cell), env, old(Snapshot()))
        decreases OSize(parent)
      {
        var p := parent.value;
        SubSmaller(p);
        var resolution := RecurseEval(fuel, Sub(p), env);
        if !resolution.Ok? {
          return resolution;
        }
        if resolution.value.NullList? {
          return Undefined;
        }
        if resolution.value.structure == Some(TrueCell) {
          return Ok(Wrap(Some(TrueCell)));
        }
        parent := Next(p);
      }
      r := Ok(Wrap(Some(FalseCell)));
    }

    /** `cond`. */
    method Cond(fuel: nat, cell: Cell, env: Env) returns (r: Result<ListRef>)
      modifies this
      ensures Run(r, Snapshot()) == CondLoop(fuel, Next(cell), env, old(Snapshot()))
      decreases fuel, 1, 0
    {
      var pairParent := Next(cell);
      while pairParent.Some?
        invariant CondLoop(fuel, pairParent, env, Snapshot()) == CondLoop(fuel, Next(cell), env, old(Snapshot()))
        decreases OSize(pairParent)
      {
        var pp := pairParent.value;
        SubSmaller(pp);
        if Sub(pp).None? {
          return Undefined;
        }
        var clause := Sub(pp).value;
        if IsElseClause(clause) {
          r := OperandValue(fuel, clause, 1, env);
          return;
        }
        var resolution := RecurseEval(fuel, Sub(clause), env);
        if !resolution.Ok? {
          return resolution;
        }
        if resolution.value.NullList? {
          return Undefined;
        }
        if resolution.value.structure == Some(TrueCell) {
          r := OperandValue(fuel, clause, 1, env);
          return;
        }
        pairParent := Next(pp);
      }
      r := Ok(Wrap(Some(FalseCell)));
    }

    /** `alternateIf`. */
    method AlternateIf(fuel: nat, cell: Cell, env: Env) returns (r: Result<ListRef>)
      modifies this
      ensures Run(r, Snapshot()) == EvalIf(fuel, cell, env, old(Snapshot()))
      decreases fuel, 2, 0
    {
      var resolution := OperandValue(fuel, cell, 1, env);
      if !resolution.Ok? {
        return resolution;
      }
      if resolution.value.NullList? {
        return Undefined;
      }
      if resolution.value.structure == Some(TrueCell) {
        r := OperandValue(fuel, cell, 2, env);
      } else {
        r := OperandValue(fuel, cell, 3, env);
      }
    }

    /** The `define` branch of `recurse_eval`, with `define` publishing to
        the global store only when `env` is that store. */
    method DefineForm(fuel: nat, cell: Cell, env: Env) returns (r: Result<ListRef>)
      modifies this
      ensures Run(r, Snapshot()) == EvalDefine(fuel, cell, env, old(Snapshot()))
      decreases fuel, 2, 0
    {
      var key := OperandValue(fuel, cell, 1, env);
      if !key.Ok? {
        return key;
      }
      var value := OperandValue(fuel, cell, 2, env);
      if !value.Ok? {
        return value;
      }
      if key.value.NullList? {
        return Undefined;
      }
      if IsList(key.value.structure) == FalseCell {
        if value.value.NullList? {
          return Undefined;
        }
        var enviro := Define(key.value.structure, value.value.structure, env.chain);
        if env.stamp == Global(varsGen) {
          vars := enviro;
          varsGen := varsGen + 1;
        }
        r := Ok(NullList);
      } else {
        var body := Operand(cell, 2);
        if !body.Ok? {
          return Undefined;
        }
        DefineFunction(key.value.structure, body.value);
        r := Ok(NullList);
      }
    }

    /** `defineFunction`: prepend the pair to the function store. */
    method DefineFunction(nameParams: Option<Cell>, expression: Option<Cell>)
      modifies this
      ensures fns == Define(nameParams, expression, old(fns))
      ensures vars == old(vars) && varsGen == old(varsGen)
    {
      fns := Define(nameParams, expression, fns);
    }

    /** The `assoc` branch of `recurse_eval`. */
    method AssocForm(fuel: nat, cell: Cell, env: Env) returns (r: Result<ListRef>)
      modifies this
      ensures Run(r, Snapshot()) == EvalAssoc(fuel, cell, env, old(Snapshot()))
      decreases fuel, 2, 0
    {
      var o := Operand(cell, 1);
      if !o.Ok? || o.value.None? {
        return Undefined;
      }
      var symbolParent := Next(o.value.value);
      var list := OperandValue(fuel, cell, 2, env);
      if !list.Ok? {
        return list;
      }
      if list.value.NullList? {
        return Undefined;
      }
      var a := Assoc(symbolParent, list.value.structure);
      r := if a.Ok? then Ok(Wrap(a.value)) else Undefined;
    }

    /** The atom-below branch of `recurse_eval`: call a stored function in
        a fresh local environment, or look the cell up as a variable. */
    method CallOrLookup(fuel: nat, cell: Cell, env: Env) returns (r: Result<ListRef>)
      modifies this
      ensures Run(r, Snapshot()) == Evaluation.CallOrLookup(fuel, cell, env, old(Snapshot()))
      decreases fuel, 2, 0
    {
      var m := AssocForFn(cell, fns);
      if !m.Ok? {
        return Undefined;
      }
      if m.value.NoFunction? {
        return AssocForVar(cell, env.chain);
      }
      var p := m.value.pair;
      if Sub(p).None? {
        return Undefined;
      }
      var formalParams := Cdr(Sub(p).value);
      var actualParams := Cdr(cell);
      var localEnv := BindLocals(fuel, formalParams, actualParams, IniAssocList(), env);
      if !localEnv.Ok? {
        return Abort(localEnv);
      }
      r := RecurseEval(fuel, Cadr(p), Env(localEnv.value, Local));
    }

    /** `bindLocals`. */
    method BindLocals(fuel: nat, formalParams: Cell, actualParams: Cell, newEnviro: Cell, oldEnviro: Env)
      returns (r: Result<Cell>)
      modifies this
      ensures Run(r, Snapshot())
              == BindLoop(fuel, Some(formalParams), Some(actualParams), newEnviro, oldEnviro, old(Snapshot()))
      decreases fuel, 1, 0
    {
      var focus := Some(formalParams);
      var param := Some(actualParams);
      var local := newEnviro;
      while focus.Some?
        invariant BindLoop(fuel, focus, param, local, oldEnviro, Snapshot())
                  == BindLoop(fuel, Some(formalParams), Some(actualParams), newEnviro, oldEnviro, old(Snapshot()))
        decreases OSize(focus)
      {
        var f := focus.value;
        SubSmaller(f);
        if param.None? {
          return Undefined;
        }
        var a := param.value;
        var v := RecurseEval(fuel, Sub(a), oldEnviro);
        if !v.Ok? {
          return Abort(v);
        }
        if v.value.NullList? {
          return Undefined;
        }
        local := Define(Sub(f), v.value.structure, local);
        focus := Next(f);
        param := Next(a);
      }
      r := Ok(local);
    }
  }
}
