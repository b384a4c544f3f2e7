/**
 * What a sequence of top-level inputs does: expressions as the reader
 * builds them, evaluated one after another by `eval` against the stores
 * the previous input left behind.
 */
module TopLevel {
  import opened Cells
  import opened Primitives
  import opened Environments
  import opened Evaluation
  import opened EvaluationLaws
  import opened Parser

  /** The environment `eval` hands to `recurse_eval`. */
  function TopEnv(st: Globals): Env
  {
    Env(st.vars, Global(st.varsGen))
  }

  /** A bare symbol evaluates to what it is bound to. */
  lemma SymbolEval(fuel: nat, x: string, env: Env, st: Globals)
    requires fuel >= 1
    ensures Eval(fuel, Some(Leaf(x)), env, st) == Run(AssocForVar(Leaf(x), env.chain), st)
  {
  }

  /** A quoted datum evaluates to itself. */
  lemma QuoteEval(fuel: nat, c: Cell, env: Env, st: Globals)
    requires fuel >= 2
    ensures Eval(fuel, Some(QuoteOf(c)), env, st) == Run(Ok(Wrap(Some(c))), st)
  {
    assert KeywordForm("quote") == Some(QuoteForm);
    assert Dispatch(fuel - 1, QuoteOf(c), env, st) == EvalForm(fuel - 1, QuoteForm, QuoteOf(c), env, st);
  }

  /** The i-th operand of a form the reader built is the tree of its i-th
      element. */
  lemma OperandOfTree(es: seq<SExpr>, i: nat)
    requires i < |es|
    ensures Operand(Tree(ListOf(es)), i) == Ok(Some(Tree(es[i])))
  {
    ListElements(es);
  }

  /** A form headed by a keyword is handed to that keyword's branch. */
  lemma KeywordEval(fuel: nat, c: Cell, s: string, env: Env, st: Globals)
    requires fuel >= 1 && Sub(c) == Some(Leaf(s)) && KeywordForm(s).Some?
    ensures Eval(fuel, Some(c), env, st) == EvalForm(fuel - 1, KeywordForm(s).value, c, env, st)
  {
  }

  /** `define` with a symbol key binds the key to the value in the
      environment it was given, and publishes it when that environment is
      the current global one. */
  lemma DefineSymbolKey(fuel: nat, c: Cell, k: string, value: Cell, env: Env, st: Globals)
    requires EvalOperand(fuel, c, 1, env, st) == Run(Ok(Wrap(Some(Leaf(k)))), st)
    requires EvalOperand(fuel, c, 2, env, st) == Run(Ok(Wrap(Some(value))), st)
    requires env.stamp == Global(st.varsGen)
    ensures EvalDefine(fuel, c, env, st)
            == Run(Ok(NullList), Globals(Define(Some(Leaf(k)), Some(value), env.chain), st.varsGen + 1, st.fns))
  {
    assert IsList(Some(Leaf(k))) == FalseCell;
  }

  /** `(define x 'v)`, the first definition of `x`. */
  function DefineExpr(x: string, v: SExpr): Cell
  {
    Tree(ListOf([Atom("define"), Atom(x), Quote(v)]))
  }

  /** A top-level `(define x 'w)` where `x` evaluates to the symbol `k`
      binds `k` to `w` and publishes the new global list. */
  lemma TopDefine(fuel: nat, x: string, k: string, w: SExpr, st: Globals)
    requires fuel >= 3
    requires AssocForVar(Leaf(x), st.vars) == Ok(Wrap(Some(Leaf(k))))
    ensures EvalTop(fuel, DefineExpr(x, w), st)
            == Run(Ok(NullList), Globals(Define(Some(Leaf(k)), Some(Tree(w)), st.vars), st.varsGen + 1, st.fns))
  {
    DefineExprOperands(fuel - 1, x, k, w, TopEnv(st), st);
    DefineAtTop(fuel, DefineExpr(x, w), k, Tree(w), st);
  }

  /** A top-level `define` whose key yields the symbol `k` and whose value
      operand yields `value` binds `k` in front and publishes the store. */
  lemma DefineAtTop(fuel: nat, c: Cell, k: string, value: Cell, st: Globals)
    requires fuel >= 1 && Sub(c) == Some(Leaf("define"))
    requires EvalOperand(fuel - 1, c, 1, TopEnv(st), st) == Run(Ok(Wrap(Some(Leaf(k)))), st)
    requires EvalOperand(fuel - 1, c, 2, TopEnv(st), st) == Run(Ok(Wrap(Some(value))), st)
    ensures EvalTop(fuel, c, st)
            == Run(Ok(NullList), Globals(Define(Some(Leaf(k)), Some(value), st.vars), st.varsGen + 1, st.fns))
  {
    assert KeywordForm("define") == Some(DefineForm);
    KeywordEval(fuel, c, "define", TopEnv(st), st);
    DefineSymbolKey(fuel - 1, c, k, value, TopEnv(st), st);
  }

  /** The operands of `(define x 'w)`: the symbol `x`, evaluated to its
      binding, and the quoted value. */
  lemma DefineExprOperands(fuel: nat, x: string, k: string, w: SExpr, env: Env, st: Globals)
    requires fuel >= 2
    requires AssocForVar(Leaf(x), env.chain) == Ok(Wrap(Some(Leaf(k))))
    ensures Sub(DefineExpr(x, w)) == Some(Leaf("define"))
    ensures EvalOperand(fuel, DefineExpr(x, w), 1, env, st) == Run(Ok(Wrap(Some(Leaf(k)))), st)
    ensures EvalOperand(fuel, DefineExpr(x, w), 2, env, st) == Run(Ok(Wrap(Some(Tree(w)))), st)
  {
    var es := [Atom("define"), Atom(x), Quote(w)];
    OperandOfTree(es, 0);
    OperandOfTree(es, 1);
    OperandOfTree(es, 2);
    SymbolEval(fuel, x, env, st);
    QuoteEval(fuel, Tree(w), env, st);
  }

  /** A top-level `(define x 'v)` of an unbound `x` prints nothing,
      publishes the binding, and from then on `x` evaluates to `v` (a bound
      `#f` reads back as a NULL structure). */
  lemma DefineThenLookup(fuel: nat, x: string, v: SExpr, st: Globals)
    requires fuel >= 3 && IsEnv(st.vars)
    requires AssocForVar(Leaf(x), st.vars) == Ok(Wrap(Some(Leaf(x))))
    ensures var r := EvalTop(fuel, DefineExpr(x, v), st);
            r.res == Ok(NullList)
            && r.st == Globals(Define(Some(Leaf(x)), Some(Tree(v)), st.vars), st.varsGen + 1, st.fns)
            && IsEnv(r.st.vars)
            && EvalTop(fuel, Leaf(x), r.st) == Run(Ok(Wrap(ReadBack(Some(Tree(v))))), r.st)
  {
    TopDefine(fuel, x, x, v, st);
    var st' := Globals(Define(Some(Leaf(x)), Some(Tree(v)), st.vars), st.varsGen + 1, st.fns);
    DefinePrepends(Some(Leaf(x)), Some(Tree(v)), st.vars);
    SymbolEval(fuel, x, TopEnv(st'), st');
    LookupAfterDefine(Leaf(x), Some(Leaf(x)), Some(Tree(v)), st.vars);
  }

  /** A second `(define x 'w)` does not rebind `x`: its key operand is
      evaluated, so it binds the symbol `x` currently stands for, and `x`
      keeps its value. */
  lemma RedefinitionKeepsValue(fuel: nat, x: string, y: string, w: SExpr, st: Globals)
    requires fuel >= 3 && IsEnv(st.vars) && y != x
    requires AssocForVar(Leaf(x), st.vars) == Ok(Wrap(Some(Leaf(y))))
    ensures var r := EvalTop(fuel, DefineExpr(x, w), st);
            r.res == Ok(NullList)
            && EvalTop(fuel, Leaf(x), r.st).res == Ok(Wrap(Some(Leaf(y))))
            && EvalTop(fuel, Leaf(y), r.st).res == Ok(Wrap(ReadBack(Some(Tree(w)))))
  {
    TopDefine(fuel, x, y, w, st);
    var st' := Globals(Define(Some(Leaf(y)), Some(Tree(w)), st.vars), st.varsGen + 1, st.fns);
    DefinePrepends(Some(Leaf(y)), Some(Tree(w)), st.vars);
    SymbolEval(fuel, x, TopEnv(st'), st');
    SymbolEval(fuel, y, TopEnv(st'), st');
    LookupPastDefine(Leaf(x), Some(Leaf(y)), Some(Tree(w)), st.vars);
    LookupAfterDefine(Leaf(y), Some(Leaf(y)), Some(Tree(w)), st.vars);
  }

  /** `(if #t 'a 'b)`. */
  function IfLiteralTrue(a: SExpr, b: SExpr): Cell
  {
    Tree(ListOf([Atom("if"), Atom("#t"), Quote(a), Quote(b)]))
  }

  /** `(if #t 'a 'b)` yields `b`: the literal `#t` is a symbol that
      evaluates to itself, not the TRUE sentinel `alternateIf` tests for. */
  lemma LiteralTrueTakesElse(fuel: nat, a: SExpr, b: SExpr, st: Globals)
    requires fuel >= 3
    requires AssocForVar(Leaf("#t"), st.vars) == Ok(Wrap(Some(Leaf("#t"))))
    ensures EvalTop(fuel, IfLiteralTrue(a, b), st) == Run(Ok(Wrap(Some(Tree(b)))), st)
  {
    assert EvalTop(fuel, IfLiteralTrue(a, b), st) == Eval(fuel, Some(IfLiteralTrue(a, b)), TopEnv(st), st);
    IfLiteralTrueOperands(fuel - 1, a, b, TopEnv(st), st);
    IfTakesElse(fuel, IfLiteralTrue(a, b), TopEnv(st), st, Some(Leaf("#t")), Tree(b));
  }

  /** The operands of `(if #t 'a 'b)`: the symbol `#t`, which evaluates to
      itself when unbound, and the quoted branches. */
  lemma IfLiteralTrueOperands(fuel: nat, a: SExpr, b: SExpr, env: Env, st: Globals)
    requires fuel >= 2
    requires AssocForVar(Leaf("#t"), env.chain) == Ok(Wrap(Some(Leaf("#t"))))
    ensures Sub(IfLiteralTrue(a, b)) == Some(Leaf("if"))
    ensures EvalOperand(fuel, IfLiteralTrue(a, b), 1, env, st) == Run(Ok(Wrap(Some(Leaf("#t")))), st)
    ensures EvalOperand(fuel, IfLiteralTrue(a, b), 3, env, st) == Run(Ok(Wrap(Some(Tree(b)))), st)
  {
    var es := [Atom("if"), Atom("#t"), Quote(a), Quote(b)];
    OperandOfTree(es, 0);
    OperandOfTree(es, 1);
    OperandOfTree(es, 3);
    SymbolEval(fuel, "#t", env, st);
    QuoteEval(fuel, Tree(b), env, st);
  }

  /** An `if` whose condition yields anything but the TRUE sentinel yields
      its else-branch. */
  lemma IfTakesElse(fuel: nat, c: Cell, env: Env, st: Globals, cond: Option<Cell>, b: Cell)
    requires fuel >= 1 && Sub(c) == Some(Leaf("if")) && cond != Some(TrueCell)
    requires EvalOperand(fuel - 1, c, 1, env, st) == Run(Ok(Wrap(cond)), st)
    requires EvalOperand(fuel - 1, c, 3, env, st) == Run(Ok(Wrap(Some(b))), st)
    ensures Eval(fuel, Some(c), env, st) == Run(Ok(Wrap(Some(b))), st)
  {
    assert KeywordForm("if") == Some(IfForm);
    KeywordEval(fuel, c, "if", env, st);
    IfMeaning(fuel - 1, c, env, st);
  }

  /** In the initial stores no symbol is bound. */
  lemma InitiallyUnbound(x: string)
    ensures IsEnv(InitialGlobals().vars)
    ensures AssocForVar(Leaf(x), InitialGlobals().vars) == Ok(Wrap(Some(Leaf(x))))
  {
    EmptyEnvironment();
    UnboundNameIsItself(Leaf(x));
  }

  // ---------------------------------------------------------------------
  // A user function

  /** A two-element list the reader built is a chain of two cells. */
  lemma PairShape(a: SExpr, b: SExpr)
    ensures Tree(ListOf([a, b])) == Node(None, Some(Tree(a)), Some(Node(None, Some(Tree(b)), None)))
  {
    var es := [a, b];
    assert es[1..] == [b];
    assert [b][1..] == [];
    assert Trees([b]) == [Some(Tree(b))] + Trees([]);
    var xs := Trees(es);
    assert xs == [Some(Tree(a)), Some(Tree(b))];
    assert xs[1..] == [Some(Tree(b))];
    assert Chain(xs[1..]) == Node(None, Some(Tree(b)), None);
    assert Tree(ListOf(es)) == Chain(xs) == Node(None, xs[0], Some(Chain(xs[1..])));
  }

  /** The head `(f p)` of a function definition. */
  function HeadExpr(f: string, p: string): Cell
  {
    Tree(ListOf([Atom(f), Atom(p)]))
  }

  /** `(define (f p) p)`. */
  function DefineIdentity(f: string, p: string): Cell
  {
    Tree(ListOf([Atom("define"), ListOf([Atom(f), Atom(p)]), Atom(p)]))
  }

  /** `(f 'v)`. */
  function CallExpr(f: string, v: SExpr): Cell
  {
    Tree(ListOf([Atom(f), Quote(v)]))
  }

  /** With nothing defined, the head `(f p)` of a definition evaluates to
      itself: neither label names a function or a variable. */
  lemma HeadEvaluatesToItself(fuel: nat, f: string, p: string)
    requires fuel >= 3 && KeywordForm(f).None? && KeywordForm(p).None?
    ensures Eval(fuel, Some(HeadExpr(f, p)), TopEnv(InitialGlobals()), InitialGlobals())
            == Run(Ok(Wrap(Some(HeadExpr(f, p)))), InitialGlobals())
  {
    var st := InitialGlobals();
    var env := TopEnv(st);
    var k := HeadExpr(f, p);
    OperandOfTree([Atom(f), Atom(p)], 0);
    OperandOfTree([Atom(f), Atom(p)], 1);
    PairShape(Atom(f), Atom(p));
    var rest := Next(k).value;
    assert Sub(rest) == Some(Leaf(p)) && Next(rest).None?;
    NoFunctionInEmpty(rest);
    UnboundNameIsItself(rest);
    assert EvalRight(fuel - 2, rest, env, st) == Run(Ok(Wrap(Some(rest))), st);
    assert Dispatch(fuel - 2, rest, env, st) == CallOrLookup(fuel - 2, rest, env, st);
    assert Eval(fuel - 1, Some(rest), env, st) == Run(Ok(Wrap(Some(rest))), st);
    assert EvalRight(fuel - 1, k, env, st) == Run(Ok(Wrap(Some(k))), st);
    NoFunctionInEmpty(k);
    UnboundNameIsItself(k);
    assert Dispatch(fuel - 1, k, env, st) == CallOrLookup(fuel - 1, k, env, st);
  }

  /** `(define (f p) p)` in the initial stores stores the function and
      leaves the variables alone. */
  lemma DefineIdentityStores(fuel: nat, f: string, p: string)
    requires fuel >= 4 && KeywordForm(f).None? && KeywordForm(p).None?
    ensures EvalTop(fuel, DefineIdentity(f, p), InitialGlobals())
            == Run(Ok(NullList), InitialGlobals().(fns := Define(Some(HeadExpr(f, p)), Some(Leaf(p)), IniAssocList())))
  {
    var st := InitialGlobals();
    DefineIdentityOperands(fuel - 1, f, p);
    DefineFunctionAtTop(fuel, DefineIdentity(f, p), HeadExpr(f, p), Leaf(p), Some(Leaf(p)), st);
  }

  /** The operands of `(define (f p) p)` in the initial stores: the head
      evaluates to itself and so does the unbound body `p`. */
  lemma DefineIdentityOperands(fuel: nat, f: string, p: string)
    requires fuel >= 3 && KeywordForm(f).None? && KeywordForm(p).None?
    ensures Sub(DefineIdentity(f, p)) == Some(Leaf("define")) && Sub(HeadExpr(f, p)).Some?
    ensures Operand(DefineIdentity(f, p), 2) == Ok(Some(Leaf(p)))
    ensures EvalOperand(fuel, DefineIdentity(f, p), 1, TopEnv(InitialGlobals()), InitialGlobals())
            == Run(Ok(Wrap(Some(HeadExpr(f, p)))), InitialGlobals())
    ensures EvalOperand(fuel, DefineIdentity(f, p), 2, TopEnv(InitialGlobals()), InitialGlobals())
            == Run(Ok(Wrap(Some(Leaf(p)))), InitialGlobals())
  {
    var st := InitialGlobals();
    var es := [Atom("define"), ListOf([Atom(f), Atom(p)]), Atom(p)];
    OperandOfTree(es, 0);
    OperandOfTree(es, 1);
    OperandOfTree(es, 2);
    HeadEvaluatesToItself(fuel, f, p);
    SymbolEval(fuel, p, TopEnv(st), st);
    UnboundNameIsItself(Leaf(p));
    PairShape(Atom(f), Atom(p));
  }

  /** A top-level `define` whose key yields a list stores the unevaluated
      value operand as a function under that key, and leaves the variables
      alone. */
  lemma DefineFunctionAtTop(fuel: nat, c: Cell, key: Cell, value: Cell, body: Option<Cell>, st: Globals)
    requires fuel >= 1 && Sub(c) == Some(Leaf("define")) && Sub(key).Some?
    requires EvalOperand(fuel - 1, c, 1, TopEnv(st), st) == Run(Ok(Wrap(Some(key))), st)
    requires EvalOperand(fuel - 1, c, 2, TopEnv(st), st) == Run(Ok(Wrap(Some(value))), st)
    requires Operand(c, 2) == Ok(body)
    ensures EvalTop(fuel, c, st) == Run(Ok(NullList), st.(fns := Define(Some(key), body, st.fns)))
  {
    assert KeywordForm("define") == Some(DefineForm);
    KeywordEval(fuel, c, "define", TopEnv(st), st);
    assert EvalForm(fuel - 1, DefineForm, c, TopEnv(st), st) == EvalDefine(fuel - 1, c, TopEnv(st), st);
  }

  /** Once `(define (f p) p)` is stored, `(f 'v)` binds `p` to `v` in a
      fresh local environment and evaluates the body there. */
  lemma CallIdentity(fuel: nat, f: string, p: string, v: SExpr, st: Globals)
    requires fuel >= 4 && KeywordForm(f).None? && p != "#f"
    requires st.fns == Define(Some(HeadExpr(f, p)), Some(Leaf(p)), IniAssocList())
    ensures EvalTop(fuel, CallExpr(f, v), st) == Run(Ok(Wrap(ReadBack(Some(Tree(v))))), st)
  {
    var env := TopEnv(st);
    var es := [Atom(f), Quote(v)];
    var c := CallExpr(f, v);
    var k := HeadExpr(f, p);
    OperandOfTree(es, 0);
    OperandOfTree(es, 1);
    OperandOfTree([Atom(f), Atom(p)], 0);
    OperandOfTree([Atom(f), Atom(p)], 1);
    PairShape(Atom(f), Quote(v));
    PairShape(Atom(f), Atom(p));
    var actuals := Next(c).value;
    assert Sub(actuals) == Some(QuoteOf(Tree(v))) && Next(actuals).None?;
    var formals := Next(k).value;
    assert Sub(formals) == Some(Leaf(p)) && Next(formals).None?;
    // the operands are evaluated for their effects first
    QuoteEval(fuel - 2, Tree(v), env, st);
    assert Sym(QuoteOf(Tree(v))).None?;
    assert EvalRight(fuel - 2, actuals, env, st) == Run(Ok(Wrap(Some(actuals))), st);
    assert Dispatch(fuel - 2, actuals, env, st) == EvalRight(fuel - 2, actuals, env, st);
    assert EvalRight(fuel - 1, c, env, st) == Run(Ok(Wrap(Some(c))), st);
    // the call
    EmptyEnvironment();
    assert Deepest(k) == Deepest(Leaf(f));
    FunctionAfterDefine(c, Some(k), Some(Leaf(p)), IniAssocList());
    var pair := Binding(Some(k), Some(Leaf(p)));
    DefinePrepends(Some(k), Some(Leaf(p)), IniAssocList());
    assert Sub(pair) == Some(k);
    QuoteEval(fuel - 1, Tree(v), env, st);
    BindStep(fuel - 1, formals, actuals, IniAssocList(), env, st, Some(Tree(v)));
    var local := Define(Some(Leaf(p)), Some(Tree(v)), IniAssocList());
    assert BindLoop(fuel - 1, Some(Cdr(k)), Some(Cdr(c)), IniAssocList(), env, st) == Run(Ok(local), st);
    assert CallOrLookup(fuel - 1, c, env, st) == Eval(fuel - 1, Some(Leaf(p)), Env(local, Local), st);
    SymbolEval(fuel - 1, p, Env(local, Local), st);
    LookupAfterDefine(Leaf(p), Some(Leaf(p)), Some(Tree(v)), IniAssocList());
    assert Dispatch(fuel - 1, c, env, st) == CallOrLookup(fuel - 1, c, env, st);
  }

  /** User functions work: after `(define (f p) p)`, `(f 'v)` yields `v`. */
  lemma IdentityFunction(fuel: nat, f: string, p: string, v: SExpr)
    requires fuel >= 4 && KeywordForm(f).None? && KeywordForm(p).None? && p != "#f"
    ensures var r := EvalTop(fuel, DefineIdentity(f, p), InitialGlobals());
            r.res == Ok(NullList) && r.st.vars == InitialGlobals().vars
            && EvalTop(fuel, CallExpr(f, v), r.st) == Run(Ok(Wrap(ReadBack(Some(Tree(v))))), r.st)
  {
    DefineIdentityStores(fuel, f, p);
    var st := InitialGlobals().(fns := Define(Some(HeadExpr(f, p)), Some(Leaf(p)), IniAssocList()));
    CallIdentity(fuel, f, p, v, st);
  }
}
