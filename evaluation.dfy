/**
 * The evaluator of src/evaluation.c as pure functions that thread the two
 * global stores (`mAssocVars`, `mAssocFns`) explicitly.
 *
 * Every operation returns a `Run`: the outcome and the stores afterwards.
 * `Eval` spends one unit of fuel per call; an exhausted bound is `OutOfFuel`.
 * The C test `environment == mAssocVars`, which decides whether a variable
 * definition is published, compares the environment an evaluation was started
 * with against the current global store. It is modelled by stamping each
 * environment: the global store carries a generation number that every
 * publication increases, and the environment handed to `recurse_eval` at top
 * level carries the generation it was taken from. A local environment of a
 * function call is never the global store.
 */
module Evaluation {
  import opened Cells
  import opened Numerals
  import opened Primitives
  import opened Environments

  datatype Stamp = Local | Global(gen: nat)

  datatype Env = Env(chain: Cell, stamp: Stamp)

  /** The two global association lists; `varsGen` counts publications to
      the variable store. */
  datatype Globals = Globals(vars: Cell, varsGen: nat, fns: Cell)

  datatype Run<+T> = Run(res: Result<T>, st: Globals)

  /** The effect an evaluation may have on the variable store: none, or
      one publication, and that only when the environment it started from
      is the current global store. The function store is not constrained. */
  predicate AtMostOnePublication(env: Env, before: Globals, after: Globals)
  {
    (after.vars == before.vars && after.varsGen == before.varsGen)
    || (env.stamp == Global(before.varsGen) && after.varsGen == before.varsGen + 1)
  }

  /** `setupGlobals`: both stores start as `iniAssocList`. */
  function InitialGlobals(): Globals
  {
    Globals(IniAssocList(), 0, IniAssocList())
  }

  /** The failure of a run, carried over to another result type. */
  function Abort<T, U>(r: Result<T>): Result<U>
  {
    if r.OutOfFuel? then OutOfFuel else Undefined
  }

  // ---------------------------------------------------------------------
  // The keyword table of `recurse_eval`

  datatype UnaryOp =
    | LastOp | LengthOp | NotOp
    | CarOp | CdrOp | CadrOp | CaddrOp | CadddrOp | CaddddrOp | CdarOp
    | SymbolOp | NullOp | NumberOp | ListOp

  datatype BinaryOp = ConsOp | CompareOp(cmp: Comparison) | AppendOp | EqualOp

  datatype Form =
    | QuoteForm | ListForm | CondForm | IfForm | DefineForm | AssocForm
    | AndForm | OrForm
    | ArithForm(op: ArithOp)
    | UnaryForm(u: UnaryOp)
    | BinaryForm(b: BinaryOp)

  /** The form a head label selects; any other label is a call or a
      variable. */
  function KeywordForm(s: string): Option<Form>
  {
    if s == "quote" then Some(QuoteForm)
    else if s == "cons" then Some(BinaryForm(ConsOp))
    else if s == "list" then Some(ListForm)
    else if s == "last" then Some(UnaryForm(LastOp))
    else if s == "length" then Some(UnaryForm(LengthOp))
    else if s == "+" then Some(ArithForm(Plus))
    else if s == "-" then Some(ArithForm(Minus))
    else if s == "*" then Some(ArithForm(Times))
    else if s == "AND" || s == "and" then Some(AndForm)
    else if s == "OR" || s == "or" then Some(OrForm)
    else if s == "NOT" || s == "not" then Some(UnaryForm(NotOp))
    else if s == "<" then Some(BinaryForm(CompareOp(Less)))
    else if s == ">" then Some(BinaryForm(CompareOp(Greater)))
    else if s == "<=" then Some(BinaryForm(CompareOp(LessEq)))
    else if s == ">=" then Some(BinaryForm(CompareOp(GreaterEq)))
    else if s == "car" then Some(UnaryForm(CarOp))
    else if s == "cdr" then Some(UnaryForm(CdrOp))
    else if s == "cadr" then Some(UnaryForm(CadrOp))
    else if s == "caddr" then Some(UnaryForm(CaddrOp))
    else if s == "cadddr" then Some(UnaryForm(CadddrOp))
    else if s == "caddddr" then Some(UnaryForm(CaddddrOp))
    else if s == "cdar" then Some(UnaryForm(CdarOp))
    else if s == "symbol?" then Some(UnaryForm(SymbolOp))
    else if s == "append" then Some(BinaryForm(AppendOp))
    else if s == "null?" then Some(UnaryForm(NullOp))
    else if s == "equal?" then Some(BinaryForm(EqualOp))
    else if s == "define" then Some(DefineForm)
    else if s == "assoc" then Some(AssocForm)
    else if s == "cond" then Some(CondForm)
    else if s == "if" then Some(IfForm)
    else if s == "number?" then Some(UnaryForm(NumberOp))
    else if s == "list?" then Some(UnaryForm(ListOp))
    else None
  }

  /** `and`, `or` and `not` are spelt in either case; `else` and `#t` are
      not keywords, so a form headed by them is a call or a variable. */
  lemma KeywordAliases()
    ensures KeywordForm("AND") == KeywordForm("and") == Some(AndForm)
    ensures KeywordForm("OR") == KeywordForm("or") == Some(OrForm)
    ensures KeywordForm("NOT") == KeywordForm("not") == Some(UnaryForm(NotOp))
    ensures KeywordForm("else") == None && KeywordForm("#t") == None
  {
  }

  // ---------------------------------------------------------------------
  // Primitives applied to evaluated operands

  /** The label an arithmetic or comparison operand is read from; a NULL
      wrapper, a NULL structure or a missing label is undefined. */
  function AtomLabel(v: ListRef): (r: Result<string>)
    ensures r.Ok? <==> v.Wrap? && v.structure.Some? && Sym(v.structure.value).Some?
    ensures r.Ok? ==> r.value == Sym(v.structure.value).value
  {
    if v.Wrap? && v.structure.Some? && Sym(v.structure.value).Some? then Ok(Sym(v.structure.value).value)
    else Undefined
  }

  /** A one-operand primitive applied to a present structure. */
  function UnaryOnCell(op: UnaryOp, c: Cell): (r: Result<ListRef>)
    ensures !r.OutOfFuel?
  {
    match op
    case NotOp => Ok(Wrap(Some(LogicNot(Some(c)))))
    case NullOp => Ok(Wrap(Some(IsNull(Some(c)))))
    case ListOp => Ok(Wrap(Some(IsList(Some(c)))))
    case LastOp => Ok(Wrap(LastItem(c)))
    case LengthOp => Ok(Wrap(Some(LengthOf(c))))
    case CarOp => Ok(Wrap(Car(c)))
    case CdrOp => Ok(Wrap(Some(Cdr(c))))
    case CadrOp => Ok(Wrap(Cadr(c)))
    case CaddrOp => Ok(Wrap(Caddr(c)))
    case CadddrOp => Ok(Wrap(Cadddr(c)))
    case CaddddrOp => Ok(Wrap(Caddddr(c)))
    case CdarOp => if Car(c).Some? then Ok(Wrap(Some(Cdar(c)))) else Undefined
    case SymbolOp => Ok(Wrap(Some(IsSymbol(c))))
    case NumberOp =>
      var t := NumberTest(c);
      if t.Ok? then Ok(Wrap(Some(t.value))) else Undefined
  }

  function ApplyUnary(op: UnaryOp, v: ListRef): (r: Result<ListRef>)
    ensures !r.OutOfFuel?
    ensures v.NullList? ==> r == Undefined
  {
    match v
    case NullList => Undefined
    case Wrap(s) =>
      if op == NotOp then Ok(Wrap(Some(LogicNot(s))))
      else if op == NullOp then Ok(Wrap(Some(IsNull(s))))
      else if op == ListOp then Ok(Wrap(Some(IsList(s))))
      else if s.None? then Undefined
      else UnaryOnCell(op, s.value)
  }

  function ApplyBinary(op: BinaryOp, a: ListRef, b: ListRef): (r: Result<ListRef>)
    ensures !r.OutOfFuel?
  {
    match op
    case ConsOp =>
      if a.NullList? || b.NullList? || b.structure.None? then Undefined
      else Ok(Wrap(Some(Cons(a.structure, b.structure.value))))
    case CompareOp(cmp) =>
      var la := AtomLabel(a);
      var lb := AtomLabel(b);
      if la.Ok? && lb.Ok? then Ok(Wrap(Some(Compare(cmp, Atoi(la.value), Atoi(lb.value)))))
      else Undefined
    case AppendOp =>
      if a.NullList? || a.structure.None? || b.NullList? then Undefined
      else Ok(Wrap(Some(AppendSubstitute(a.structure.value, b.structure))))
    case EqualOp =>
      if a.NullList? || b.NullList? then Undefined
      else Ok(Wrap(Some(IsEqual(a.structure, b.structure))))
  }

  // ---------------------------------------------------------------------
  // Operands

  /** `cell->mNext->…->mSub` with `i` links: the i-th operand of a form. */
  function Operand(cell: Cell, i: nat): (r: Result<Option<Cell>>)
    ensures !r.OutOfFuel?
    ensures r.Ok? ==> i < |Items(cell)| && r.value == Items(cell)[i]
    ensures i < |Items(cell)| ==> r.Ok?
  {
    if i == 0 then Ok(Sub(cell))
    else match Next(cell)
      case None => Undefined
      case Some(n) => Operand(n, i - 1)
  }

  // ---------------------------------------------------------------------
  // recurse_eval

  function Eval(fuel: nat, cell: Option<Cell>, env: Env, st: Globals): (r: Run<ListRef>)
    ensures AtMostOnePublication(env, st, r.st)
    decreases fuel, 0, 0
  {
    if fuel == 0 then Run(OutOfFuel, st)
    else match cell
      case None => Run(Undefined, st)
      case Some(c) => Dispatch(fuel - 1, c, env, st)
  }

  function EvalOperand(fuel: nat, cell: Cell, i: nat, env: Env, st: Globals): (r: Run<ListRef>)
    ensures AtMostOnePublication(env, st, r.st)
    decreases fuel, 0, 1
  {
    var o := Operand(cell, i);
    if o.Ok? then Eval(fuel, o.value, env, st) else Run(Undefined, st)
  }

  /** The body of `recurse_eval` for one cell. */
  function Dispatch(fuel: nat, cell: Cell, env: Env, st: Globals): (r: Run<ListRef>)
    ensures AtMostOnePublication(env, st, r.st)
    decreases fuel, 4, 0
  {
    match Sub(cell)
    case Some(head) =>
      (match Sym(head)
       case None =>
         var inner := Eval(fuel, Some(head), env, st);
         if inner.res.Ok? then EvalRight(fuel, cell, env, inner.st) else inner
       case Some(s) =>
         (match KeywordForm(s)
          case Some(form) => EvalForm(fuel, form, cell, env, st)
          case None =>
            var right := EvalRight(fuel, cell, env, st);
            if right.res.Ok? then CallOrLookup(fuel, cell, env, right.st) else right))
    case None =>
      if Sym(cell).Some? then Run(AssocForVar(cell, env.chain), st)
      else EvalRight(fuel, cell, env, st)
  }

  /** The rest of the chain is evaluated for its effects, and the wrapper
      it returns is retargeted at `cell`. */
  function EvalRight(fuel: nat, cell: Cell, env: Env, st: Globals): (r: Run<ListRef>)
    ensures AtMostOnePublication(env, st, r.st)
    ensures r.res.Ok? ==> r.res.value == Wrap(Some(cell))
    decreases fuel, 1, 0
  {
    match Next(cell)
    case None => Run(Ok(Wrap(Some(cell))), st)
    case Some(n) =>
      var rest := Eval(fuel, Some(n), env, st);
      if !rest.res.Ok? then rest
      else if rest.res.value.NullList? then Run(Undefined, rest.st)
      else Run(Ok(Wrap(Some(cell))), rest.st)
  }

  function EvalForm(fuel: nat, form: Form, cell: Cell, env: Env, st: Globals): (r: Run<ListRef>)
    ensures AtMostOnePublication(env, st, r.st)
    decreases fuel, 3, 0
  {
    match form
    case QuoteForm =>
      (match Next(cell)
       case None => Run(Undefined, st)
       case Some(n) => if Sub(n).Some? then Run(Ok(Wrap(Sub(n))), st) else Run(Undefined, st))
    case ListForm => ListLoop(fuel, Next(cell), [], env, st)
    case UnaryForm(op) =>
      var a := EvalOperand(fuel, cell, 1, env, st);
      if a.res.Ok? then Run(ApplyUnary(op, a.res.value), a.st) else a
    case BinaryForm(op) =>
      var a := EvalOperand(fuel, cell, 1, env, st);
      if !a.res.Ok? then a
      else
        var b := EvalOperand(fuel, cell, 2, env, a.st);
        if b.res.Ok? then Run(ApplyBinary(op, a.res.value, b.res.value), b.st) else b
    case ArithForm(op) =>
      if op == Minus then EvalSubtract(fuel, cell, env, st)
      else ArithLoop(fuel, op, Next(cell), if op == Plus then 0 else 1, env, st)
    case AndForm => AndLoop(fuel, Next(cell), env, st)
    case OrForm => OrLoop(fuel, Next(cell), env, st)
    case CondForm => CondLoop(fuel, Next(cell), env, st)
    case IfForm => EvalIf(fuel, cell, env, st)
    case DefineForm => EvalDefine(fuel, cell, env, st)
    case AssocForm => EvalAssoc(fuel, cell, env, st)
  }

  // ---------------------------------------------------------------------
  // Forms that walk their operands

  /** `makeList`: the evaluated operands, in order, as a fresh chain. */
  function ListLoop(fuel: nat, parent: Option<Cell>, items: seq<Option<Cell>>, env: Env, st: Globals): (r: Run<ListRef>)
    ensures AtMostOnePublication(env, st, r.st)
    decreases fuel, 1, OSize(parent)
  {
    match parent
    case None => Run(Ok(Wrap(Some(Chain(items)))), st)
    case Some(p) =>
      SubSmaller(p);
      var v := Eval(fuel, Sub(p), env, st);
      if !v.res.Ok? then v
      else if v.res.value.NullList? then Run(Undefined, v.st)
      else ListLoop(fuel, Next(p), items + [v.res.value.structure], env, v.st)
  }

  /** The accumulator loops of `add`, `subtract` and `multiply`. */
  function ArithLoop(fuel: nat, op: ArithOp, parent: Option<Cell>, acc: int, env: Env, st: Globals): (r: Run<ListRef>)
    ensures AtMostOnePublication(env, st, r.st)
    decreases fuel, 1, OSize(parent)
  {
    match parent
    case None => Run(Ok(Wrap(Some(Leaf(IntToString(acc))))), st)
    case Some(p) =>
      SubSmaller(p);
      var v := Eval(fuel, Sub(p), env, st);
      if !v.res.Ok? then v
      else
        var l := AtomLabel(v.res.value);
        if l.Ok? then ArithLoop(fuel, op, Next(p), Apply(op, acc, Atoi(l.value)), env, v.st)
        else Run(Undefined, v.st)
  }

  /** One turn of an accumulator loop. */
  lemma ArithLoopStep(fuel: nat, op: ArithOp, p: Cell, acc: int, env: Env, st: Globals)
    ensures var v := Eval(fuel, Sub(p), env, st);
            ArithLoop(fuel, op, Some(p), acc, env, st)
            == if !v.res.Ok? then v
               else if AtomLabel(v.res.value).Ok?
               then ArithLoop(fuel, op, Next(p), Apply(op, acc, Atoi(AtomLabel(v.res.value).value)), env, v.st)
               else Run(Undefined, v.st)
  {
  }

  /** `subtract`: the first operand is the starting value. */
  function EvalSubtract(fuel: nat, cell: Cell, env: Env, st: Globals): (r: Run<ListRef>)
    ensures AtMostOnePublication(env, st, r.st)
    decreases fuel, 2, 0
  {
    match Next(cell)
    case None => Run(Undefined, st)
    case Some(parent) =>
      var first := Eval(fuel, Sub(parent), env, st);
      if !first.res.Ok? then first
      else
        var l := AtomLabel(first.res.value);
        if l.Ok? then ArithLoop(fuel, Minus, Next(parent), Atoi(l.value), env, first.st)
        else Run(Undefined, first.st)
  }

  /** `logicAnd`: FALSE at the first operand that is the FALSE sentinel. */
  function AndLoop(fuel: nat, parent: Option<Cell>, env: Env, st: Globals): (r: Run<ListRef>)
    ensures AtMostOnePublication(env, st, r.st)
    decreases fuel, 1, OSize(parent)
  {
    match parent
    case None => Run(Ok(Wrap(Some(TrueCell))), st)
    case Some(p) =>
      SubSmaller(p);
      var v := Eval(fuel, Sub(p), env, st);
      if !v.res.Ok? then v
      else if v.res.value.NullList? then Run(Undefined, v.st)
      else if v.res.value.structure == Some(FalseCell) then Run(Ok(Wrap(Some(FalseCell))), v.st)
      else AndLoop(fuel, Next(p), env, v.st)
  }

  /** `logicOr`: TRUE at the first operand that is the TRUE sentinel. */
  function OrLoop(fuel: nat, parent: Option<Cell>, env: Env, st: Globals): (r: Run<ListRef>)
    ensures AtMostOnePublication(env, st, r.st)
    decreases fuel, 1, OSize(parent)
  {
    match parent
    case None => Run(Ok(Wrap(Some(FalseCell))), st)
    case Some(p) =>
      SubSmaller(p);
      var v := Eval(fuel, Sub(p), env, st);
      if !v.res.Ok? then v
      else if v.res.value.NullList? then Run(Undefined, v.st)
      else if v.res.value.structure == Some(TrueCell) then Run(Ok(Wrap(Some(TrueCell))), v.st)
      else OrLoop(fuel, Next(p), env, v.st)
  }

  /** A clause whose test is written `else` or `#t` is taken unevaluated. */
  predicate IsElseClause(clause: Cell)
  {
    Sub(clause).Some? && Sym(Sub(clause).value) in {Some("else"), Some("#t")}
  }

  /** `cond`: the body of the first clause that is an `else` clause or
      whose test yields the TRUE sentinel; FALSE when none is. */
  function CondLoop(fuel: nat, pairParent: Option<Cell>, env: Env, st: Globals): (r: Run<ListRef>)
    ensures AtMostOnePublication(env, st, r.st)
    decreases fuel, 1, OSize(pairParent)
  {
    match pairParent
    case None => Run(Ok(Wrap(Some(FalseCell))), st)
    case Some(pp) =>
      SubSmaller(pp);
      match Sub(pp)
      case None => Run(Undefined, st)
      case Some(clause) =>
        if IsElseClause(clause) then EvalOperand(fuel, clause, 1, env, st)
        else
          var test := Eval(fuel, Sub(clause), env, st);
          if !test.res.Ok? then test
          else if test.res.value.NullList? then Run(Undefined, test.st)
          else if test.res.value.structure == Some(TrueCell) then EvalOperand(fuel, clause, 1, env, test.st)
          else CondLoop(fuel, Next(pp), env, test.st)
  }

  /** `alternateIf`: the then-branch exactly when the condition yields the
      TRUE sentinel. */
  function EvalIf(fuel: nat, cell: Cell, env: Env, st: Globals): (r: Run<ListRef>)
    ensures AtMostOnePublication(env, st, r.st)
    decreases fuel, 2, 0
  {
    var c := EvalOperand(fuel, cell, 1, env, st);
    if !c.res.Ok? then c
    else if c.res.value.NullList? then Run(Undefined, c.st)
    else if c.res.value.structure == Some(TrueCell) then EvalOperand(fuel, cell, 2, env, c.st)
    else EvalOperand(fuel, cell, 3, env, c.st)
  }

  /** `define`: both operands are evaluated first; a key that is no list
      binds a variable (published to the global store only when evaluation
      started from the current global store), and a list key such as
      `(f x)` stores the unevaluated body as a function. */
  function EvalDefine(fuel: nat, cell: Cell, env: Env, st: Globals): (r: Run<ListRef>)
    ensures AtMostOnePublication(env, st, r.st)
    decreases fuel, 2, 0
  {
    var k := EvalOperand(fuel, cell, 1, env, st);
    if !k.res.Ok? then k
    else
      var v := EvalOperand(fuel, cell, 2, env, k.st);
      if !v.res.Ok? then v
      else
        match k.res.value
        case NullList => Run(Undefined, v.st)
        case Wrap(key) =>
          if IsList(key) == FalseCell then
            (match v.res.value
             case NullList => Run(Undefined, v.st)
             case Wrap(value) =>
               if env.stamp == Global(v.st.varsGen) then
                 Run(Ok(NullList), Globals(Define(key, value, env.chain), v.st.varsGen + 1, v.st.fns))
               else Run(Ok(NullList), v.st))
          else
            var body := Operand(cell, 2);
            if body.Ok? then Run(Ok(NullList), v.st.(fns := Define(key, body.value, v.st.fns)))
            else Run(Undefined, v.st)
  }

  /** `(assoc 'k alist)`: the key is read from the quoted operand without
      evaluating it; the list operand is evaluated. */
  function EvalAssoc(fuel: nat, cell: Cell, env: Env, st: Globals): (r: Run<ListRef>)
    ensures AtMostOnePublication(env, st, r.st)
    decreases fuel, 2, 0
  {
    var o := Operand(cell, 1);
    if !o.Ok? || o.value.None? then Run(Undefined, st)
    else
      var symbolParent := Next(o.value.value);
      var l := EvalOperand(fuel, cell, 2, env, st);
      if !l.res.Ok? then l
      else match l.res.value
        case NullList => Run(Undefined, l.st)
        case Wrap(list) =>
          var a := Assoc(symbolParent, list);
          if a.Ok? then Run(Ok(Wrap(a.value)), l.st) else Run(Undefined, l.st)
  }

  // ---------------------------------------------------------------------
  // Calls of user functions

  /** A head label that is not a keyword: a call of a stored function, or
      else the lookup of the cell as a variable. */
  function CallOrLookup(fuel: nat, cell: Cell, env: Env, st: Globals): (r: Run<ListRef>)
    ensures AtMostOnePublication(env, st, r.st)
    decreases fuel, 2, 0
  {
    var m := AssocForFn(cell, st.fns);
    if !m.Ok? then Run(Undefined, st)
    else match m.value
      case NoFunction => Run(AssocForVar(cell, env.chain), st)
      case Function(p) =>
        match Sub(p)
        case None => Run(Undefined, st)
        case Some(key) =>
          var b := BindLoop(fuel, Some(Cdr(key)), Some(Cdr(cell)), IniAssocList(), env, st);
          if b.res.Ok? then Eval(fuel, Cadr(p), Env(b.res.value, Local), b.st)
          else Run(Abort(b.res), b.st)
  }

  /** `bindLocals`: each formal, in order, bound to its actual evaluated in
      the caller's environment; running out of actuals is undefined. */
  function BindLoop(fuel: nat, focus: Option<Cell>, param: Option<Cell>, local: Cell, env: Env, st: Globals): (r: Run<Cell>)
    ensures AtMostOnePublication(env, st, r.st)
    decreases fuel, 1, OSize(focus)
  {
    match focus
    case None => Run(Ok(local), st)
    case Some(f) =>
      SubSmaller(f);
      match param
      case None => Run(Undefined, st)
      case Some(a) =>
        var v := Eval(fuel, Sub(a), env, st);
        if !v.res.Ok? then Run(Abort(v.res), v.st)
        else if v.res.value.NullList? then Run(Undefined, v.st)
        else BindLoop(fuel, Next(f), Next(a), Define(Sub(f), v.res.value.structure, local), env, v.st)
  }

  // ---------------------------------------------------------------------
  // Top level

  /** `eval`: evaluate a parsed expression against the current global
      store. */
  function EvalTop(fuel: nat, expr: Cell, st: Globals): (r: Run<ListRef>)
    ensures r.st.varsGen == st.varsGen || r.st.varsGen == st.varsGen + 1
    ensures r.st.varsGen == st.varsGen ==> r.st.vars == st.vars
  {
    Eval(fuel, Some(expr), Env(st.vars, Global(st.varsGen)), st)
  }
}
