/**
 * Association lists, the environments of src/evaluation.c. An environment is
 * a chain whose elements are name/value pairs built by `define`; the empty
 * environment is the `#f` leaf of `iniAssocList`. A name is found by
 * following `sub` from an entry down to the deepest cell and comparing that
 * cell's label, so a pair whose name is itself a list, such as the `(f x)` of
 * a function definition, is found by its first label.
 */
module Environments {
  import opened Cells
  import opened Primitives

  /** The cell `findAssoc` reaches by following `sub` as far as it goes. */
  function Deepest(c: Cell): (d: Cell)
    ensures Sub(d).None?
    decreases Size(c)
  {
    SubSmaller(c);
    match Sub(c)
    case Some(s) => Deepest(s)
    case None => c
  }

  /** The name an entry of an association list is found by. */
  function EntryName(e: Cell): Option<string>
  {
    Sym(Deepest(e))
  }

  /** `findAssoc`: scan the chain for the first entry named `symbol`; an
      empty slot ends the scan, and a missing label on either side is
      `strcmp` on NULL. */
  function FindAssoc(symbol: Cell, pair: Cell): (r: Result<Option<Cell>>)
    ensures !r.OutOfFuel?
    ensures r.Ok? && r.value.Some? ==>
              r.value in Items(pair) && EntryName(r.value.value) == Sym(symbol)
    decreases Size(pair)
  {
    SubSmaller(pair);
    if Sub(pair).None? then Ok(None)
    else
      var focus := Deepest(pair);
      if Sym(symbol).None? || Sym(focus).None? then Undefined
      else if Sym(symbol) == Sym(focus) then Ok(Sub(pair))
      else
        match Next(pair)
        case Some(n) => FindAssoc(symbol, n)
        case None => Ok(None)
  }

  /** The cell whose label `assoc` looks up: the element of `symbolParent`,
      or `symbolParent` itself when it holds none. */
  function LookupKey(symbolParent: Cell): Cell
  {
    match Sub(symbolParent)
    case Some(k) => k
    case None => symbolParent
  }

  /** `assoc`: the matching pair, or a fresh `#f` leaf; an absent list gives
      back `symbolParent` itself. */
  function Assoc(symbolParent: Option<Cell>, list: Option<Cell>): (r: Result<Option<Cell>>)
    ensures !r.OutOfFuel?
    ensures list.None? ==> r == Ok(symbolParent)
    ensures list.Some? && r.Ok? ==> r.value.Some?
  {
    match list
    case None => Ok(symbolParent)
    case Some(l) =>
      match symbolParent
      case None => Undefined
      case Some(sp) =>
        var found := FindAssoc(LookupKey(sp), l);
        if found.Ok? then
          Ok(Some(match found.value case Some(x) => x case None => FalseLeaf()))
        else Undefined
  }

  /** The name/value pair `define` conses onto an environment. */
  function Binding(name: Option<Cell>, value: Option<Cell>): Cell
  {
    Cons(name, Cons(value, FalseLeaf()))
  }

  /** `define` and `defineFunction`: a new environment whose first entry is
      the pair of `name` and `value`. */
  function Define(name: Option<Cell>, value: Option<Cell>, env: Cell): Cell
  {
    Cons(Some(Binding(name, value)), env)
  }

  /** `assocForVar`: the value bound to the label of `cell`, or `cell`
      itself when nothing is bound to it. */
  function AssocForVar(cell: Cell, env: Cell): (r: Result<ListRef>)
    ensures !r.OutOfFuel? && (r.Ok? ==> r.value.Wrap?)
  {
    var a := Assoc(Some(cell), Some(env));
    if a.Ok? then
      var found := a.value.value;
      if Sym(found) == Some("#f") then Ok(Wrap(Some(cell))) else Ok(Wrap(Cadr(found)))
    else Undefined
  }

  /** What `assocForFn` reports: no function of that name (it hands back
      the cell), or the matched pair. */
  datatype FnMatch = NoFunction | Function(pair: Cell)

  /** `assocForFn`: look the cell up in the function environment, and on a
      hit look up its element again to fetch the pair. */
  function AssocForFn(cell: Cell, fns: Cell): (r: Result<FnMatch>)
    ensures !r.OutOfFuel?
  {
    var first := Assoc(Some(cell), Some(fns));
    if !first.Ok? then Undefined
    else if Sym(first.value.value) == Some("#f") then Ok(NoFunction)
    else
      var second := Assoc(Sub(cell), Some(fns));
      if second.Ok? then Ok(Function(second.value.value)) else Undefined
  }

  // ---------------------------------------------------------------------
  // Properties

  /** Every environment `define` builds keeps the normal `cons` shape: its
      first element is never a `#f` atom. */
  predicate IsEnv(env: Cell)
  {
    !HeadedByFalseLeaf(env)
  }

  /** The value a lookup of a fresh binding yields: the bound value, except
      that a bound `#f` atom is lost to the special case of `cons` and reads
      back as a NULL structure. */
  function ReadBack(value: Option<Cell>): Option<Cell>
  {
    if value.Some? && Sym(value.value) == Some("#f") then None else value
  }

  lemma DefinePrepends(name: Option<Cell>, value: Option<Cell>, env: Cell)
    requires IsEnv(env)
    ensures IsEnv(Define(name, value, env))
    ensures Items(Define(name, value, env)) == [Some(Binding(name, value))] + Items(env)
    ensures Cadr(Binding(name, value)) == ReadBack(value)
    ensures name.Some? ==> EntryName(Binding(name, value)) == EntryName(name.value)
  {
    if name.Some? {
      var b := Binding(name, value);
      if HeadedByFalseLeaf(Cons(value, FalseLeaf())) {
        assert Deepest(b) == Deepest(Node(None, name, None)) == Deepest(name.value);
      } else {
        assert Deepest(b) == Deepest(name.value);
      }
    }
  }

  lemma EmptyEnvironment()
    ensures IsEnv(IniAssocList())
    ensures Items(IniAssocList()) == [None]
  {
  }

  /** A label is found at the first entry that carries it, provided every
      entry before it is present, labelled, and labelled differently. */
  lemma {:induction false} FindAssocFirstMatch(symbol: Cell, pair: Cell, i: nat)
    requires Sym(symbol).Some?
    requires i < |Items(pair)| && Items(pair)[i].Some?
    requires EntryName(Items(pair)[i].value) == Sym(symbol)
    requires forall j :: 0 <= j < i ==>
               Items(pair)[j].Some? && EntryName(Items(pair)[j].value).Some?
               && EntryName(Items(pair)[j].value) != Sym(symbol)
    ensures FindAssoc(symbol, pair) == Ok(Items(pair)[i])
    decreases Size(pair)
  {
    SubSmaller(pair);
    assert Deepest(pair) == Deepest(Sub(pair).value);
    if i > 0 {
      var n := Next(pair).value;
      assert Items(pair) == [Sub(pair)] + Items(n);
      assert forall j :: 0 <= j < |Items(n)| ==> Items(n)[j] == Items(pair)[j + 1];
      FindAssocFirstMatch(symbol, n, i - 1);
    }
  }

  /** A label carried by no entry is not found (the scan also stops at the
      first empty slot). */
  lemma {:induction false} FindAssocMiss(symbol: Cell, pair: Cell)
    requires Sym(symbol).Some?
    requires forall j :: 0 <= j < |Items(pair)| && Items(pair)[j].Some? ==>
               EntryName(Items(pair)[j].value).Some? && EntryName(Items(pair)[j].value) != Sym(symbol)
    ensures FindAssoc(symbol, pair) == Ok(None)
    decreases Size(pair)
  {
    SubSmaller(pair);
    if Sub(pair).Some? {
      assert Items(pair)[0] == Sub(pair);
      assert Deepest(pair) == Deepest(Sub(pair).value);
      if Next(pair).Some? {
        var n := Next(pair).value;
        assert Items(pair) == [Sub(pair)] + Items(n);
        assert forall j :: 0 <= j < |Items(n)| ==> Items(n)[j] == Items(pair)[j + 1];
        FindAssocMiss(symbol, n);
      }
    }
  }

  /** A symbol nobody defined evaluates to itself. */
  lemma UnboundNameIsItself(cell: Cell)
    ensures AssocForVar(cell, IniAssocList()) == Ok(Wrap(Some(cell)))
  {
  }

  /** Looking up the name just defined yields the value just bound. */
  lemma LookupAfterDefine(cell: Cell, name: Option<Cell>, value: Option<Cell>, env: Cell)
    requires IsEnv(env) && name.Some?
    requires Sym(LookupKey(cell)).Some? && EntryName(name.value) == Sym(LookupKey(cell))
    ensures AssocForVar(cell, Define(name, value, env)) == Ok(Wrap(ReadBack(value)))
  {
    DefinePrepends(name, value, env);
    FindAssocFirstMatch(LookupKey(cell), Define(name, value, env), 0);
  }

  /** Defining one name leaves the lookup of every other name as it was. */
  lemma LookupPastDefine(cell: Cell, name: Option<Cell>, value: Option<Cell>, env: Cell)
    requires IsEnv(env) && name.Some? && EntryName(name.value).Some?
    requires Sym(LookupKey(cell)).Some? && EntryName(name.value) != Sym(LookupKey(cell))
    ensures AssocForVar(cell, Define(name, value, env)) == AssocForVar(cell, env)
  {
    DefinePrepends(name, value, env);
    var e := Define(name, value, env);
    assert Deepest(e) == Deepest(Binding(name, value));
    assert FindAssoc(LookupKey(cell), e) == FindAssoc(LookupKey(cell), env);
  }

  /** A call `(f …)` finds the most recent definition of `f`. */
  lemma FunctionAfterDefine(cell: Cell, name: Option<Cell>, body: Option<Cell>, fns: Cell)
    requires IsEnv(fns) && name.Some?
    requires Sub(cell).Some? && Sub(Sub(cell).value).None?
    requires Sym(Sub(cell).value).Some? && EntryName(name.value) == Sym(Sub(cell).value)
    ensures AssocForFn(cell, Define(name, body, fns)) == Ok(Function(Binding(name, body)))
  {
    DefinePrepends(name, body, fns);
    FindAssocFirstMatch(Sub(cell).value, Define(name, body, fns), 0);
  }

  /** A call whose head label no function carries is not a call. */
  lemma NoFunctionInEmpty(cell: Cell)
    requires Sub(cell).Some?
    ensures AssocForFn(cell, IniAssocList()) == Ok(NoFunction)
  {
  }
}
