/**
 * The primitive library of src/evaluation.c, applied to operands that the
 * evaluator has already evaluated. Each primitive works on the structure a
 * `List` wrapper holds; where the C code would dereference NULL on some
 * operand, the primitive requires the operand to be present and the evaluator
 * checks it first. The in-place retargeting of the wrapper by `car` and `cdr`
 * is modelled by returning the new structure: no wrapper is ever shared.
 */
module Primitives {
  import opened Cells
  import opened Numerals

  /** The sentinel that reports a logical result. */
  function Truth(b: bool): Cell { if b then TrueCell else FalseCell }

  // ---------------------------------------------------------------------
  // car, cdr and their compositions

  function Car(s: Cell): Option<Cell> { Sub(s) }

  /** `cdr` of a cell with no `next` gives a fresh empty cell. */
  function Cdr(s: Cell): Cell
  {
    match Next(s)
    case Some(n) => n
    case None => IniCell()
  }

  function Cadr(s: Cell): Option<Cell> { Car(Cdr(s)) }
  function Caddr(s: Cell): Option<Cell> { Car(Cdr(Cdr(s))) }
  function Cadddr(s: Cell): Option<Cell> { Car(Cdr(Cdr(Cdr(s)))) }
  function Caddddr(s: Cell): Option<Cell> { Car(Cdr(Cdr(Cdr(Cdr(s))))) }

  /** `cdar`: `cdr` of the `car`; the `car` must exist. */
  function Cdar(s: Cell): Cell
    requires Car(s).Some?
  {
    Cdr(Car(s).value)
  }

  /** `car` reads the first element of a chain, and `cdr` of a chain of two
      or more cells is the chain of the remaining elements; a chain of one
      cell gives a fresh empty cell. */
  lemma CdrDropsFirstItem(s: Cell)
    ensures Car(s) == Items(s)[0]
    ensures |Items(s)| >= 2 ==> Items(Cdr(s)) == Items(s)[1..]
    ensures |Items(s)| == 1 ==> Cdr(s) == IniCell()
  {
    assert Items(s) == [Sub(s)] + match Next(s) case Some(n) => Items(n) case None => [];
  }

  /** The compositions read the successive elements of a chain, and `cdar`
      drops the first element of the first element. */
  lemma CompositionsReadItems(s: Cell)
    ensures |Items(s)| >= 2 ==> Cadr(s) == Items(s)[1]
    ensures |Items(s)| >= 3 ==> Caddr(s) == Items(s)[2]
    ensures |Items(s)| >= 4 ==> Cadddr(s) == Items(s)[3]
    ensures |Items(s)| >= 5 ==> Caddddr(s) == Items(s)[4]
    ensures Car(s).Some? && |Items(Car(s).value)| >= 2 ==> Items(Cdar(s)) == Items(Items(s)[0].value)[1..]
  {
    CdrDropsFirstItem(s);
    if Car(s).Some? {
      CdrDropsFirstItem(Car(s).value);
    }
    if |Items(s)| >= 2 {
      var s1 := Cdr(s);
      CdrDropsFirstItem(s1);
      if |Items(s1)| >= 2 {
        var s2 := Cdr(s1);
        CdrDropsFirstItem(s2);
        if |Items(s2)| >= 2 {
          var s3 := Cdr(s2);
          CdrDropsFirstItem(s3);
          if |Items(s3)| >= 2 {
            CdrDropsFirstItem(Cdr(s3));
          }
        }
      }
    }
  }

  // ---------------------------------------------------------------------
  // cons

  /** The test `cons` makes for "the empty list convention": the second
      operand's first element is a `#f` atom. */
  predicate HeadedByFalseLeaf(b: Cell)
  {
    Sub(b).Some? && Sym(Sub(b).value) == Some("#f")
  }

  function Cons(a: Option<Cell>, b: Cell): Cell
  {
    if HeadedByFalseLeaf(b) then Node(None, Some(Node(None, a, None)), None)
    else Node(None, a, Some(b))
  }

  /** `car` and `cdr` undo `cons`, sharing both operands; on a `#f`-headed
      second operand `cons` yields a one-cell chain holding `(a)`. */
  lemma CarCdrOfCons(a: Option<Cell>, b: Cell)
    ensures !HeadedByFalseLeaf(b) ==> Car(Cons(a, b)) == a && Cdr(Cons(a, b)) == b
    ensures !HeadedByFalseLeaf(b) ==> Items(Cons(a, b)) == [a] + Items(b)
    ensures HeadedByFalseLeaf(b) ==> Car(Cons(a, b)) == Some(Chain([a])) && Cdr(Cons(a, b)) == IniCell()
    ensures HeadedByFalseLeaf(b) ==> Items(Cons(a, b)) == [Some(Chain([a]))]
  {
  }

  // ---------------------------------------------------------------------
  // Predicates

  /** `symbol?`: TRUE exactly on a labelled cell. */
  function IsSymbol(s: Cell): (r: Cell)
    ensures r == TrueCell <==> Sym(s).Some?
    ensures r == FalseCell <==> Sym(s).None?
  {
    Truth(Sym(s).Some?)
  }

  /** `isList`: TRUE exactly on a structure whose first element is present. */
  function IsList(s: Option<Cell>): (r: Cell)
    ensures r == TrueCell <==> s.Some? && Car(s.value).Some?
    ensures r == FalseCell <==> s.None? || Car(s.value).None?
  {
    Truth(s.Some? && Sub(s.value).Some?)
  }

  /** `isNull` as written: the `#t` test at line 416 reads the symbol of a
      NULL structure before the NULL case at line 426 is reached. */
  function IsNullAsWritten(s: Option<Cell>): (r: Result<Cell>)
    ensures r == Undefined <==> s.None?
    ensures r.Ok? ==> r.value == TrueCell || r.value == FalseCell
  {
    if s == Some(TrueCell) then Ok(FalseCell)
    else if s.None? then Undefined
    else if Sym(s.value) == Some("#t") then Ok(FalseCell)
    else if s.value == FalseCell || Sym(s.value) == Some("#f") then Ok(TrueCell)
    else Ok(Truth(IsEmptyStructure(s.value)))
  }

  /** `isNull` with the NULL case of line 426 reachable. */
  function IsNull(s: Option<Cell>): (r: Cell)
    ensures r == TrueCell || r == FalseCell
    ensures s.None? ==> r == TrueCell
  {
    match s
    case None => TrueCell
    case Some(c) =>
      if c == TrueCell || Sym(c) == Some("#t") then FalseCell
      else if c == FalseCell || Sym(c) == Some("#f") then TrueCell
      else Truth(IsEmptyStructure(c))
  }

  /** The two agree on every present structure; only the NULL structure
      separates them. */
  lemma IsNullCorrection(s: Option<Cell>)
    ensures s.Some? ==> IsNullAsWritten(s) == Ok(IsNull(s))
    ensures IsNullAsWritten(None) == Undefined && IsNull(None) == TrueCell
  {
  }

  /** `null?` holds of FALSE and `#f`, never of TRUE and `#t`, and otherwise
      exactly when no label but `quote`, `()`, `#f`, `#t` occurs. */
  lemma IsNullMeaning(c: Cell)
    ensures IsNull(Some(c)) == TrueCell <==>
              c != TrueCell && Sym(c) != Some("#t")
              && (c == FalseCell || Sym(c) == Some("#f") || Labels(c) <= Reserved)
  {
    IsEmptyStructureIff(c);
  }

  /** `isEqual`: two present structures are compared by `compareEqual`; two
      NULL structures are equal; one NULL structure is not. */
  function IsEqual(a: Option<Cell>, b: Option<Cell>): (r: Cell)
    ensures r == TrueCell || r == FalseCell
  {
    if a.Some? && b.Some? then Truth(CompareEqual(a.value, b.value))
    else if a.None? && b.None? then TrueCell
    else FalseCell
  }

  function OShape(o: Option<Cell>): Option<Cell>
  {
    match o
    case Some(c) => Some(Shape(c))
    case None => None
  }

  lemma IsEqualMeaning(a: Option<Cell>, b: Option<Cell>)
    ensures IsEqual(a, b) == TrueCell <==> OShape(a) == OShape(b)
    ensures IsEqual(a, b) == FalseCell <==> OShape(a) != OShape(b)
  {
    if a.Some? && b.Some? {
      CompareEqualIsShapeEquality(a.value, b.value);
    }
  }

  // ---------------------------------------------------------------------
  // append

  /** `appendSubstitute`: one fresh shell per cell of the first chain, each
      holding that cell's element; the last shell continues with `second`. */
  function AppendSubstitute(c: Cell, second: Option<Cell>): Cell
    decreases Size(c)
  {
    SubSmaller(c);
    Node(None, Sub(c),
         match Next(c)
         case Some(n) => Some(AppendSubstitute(n, second))
         case None => second)
  }

  /** The elements of an optional chain; a NULL one has none. */
  function OItems(o: Option<Cell>): seq<Option<Cell>>
  {
    match o
    case Some(c) => Items(c)
    case None => []
  }

  lemma {:induction false} AppendItems(a: Cell, b: Option<Cell>)
    ensures Items(AppendSubstitute(a, b)) == Items(a) + OItems(b)
    ensures |Items(AppendSubstitute(a, b))| == |Items(a)| + |OItems(b)|
    decreases Size(a)
  {
    SubSmaller(a);
    match Next(a) {
      case Some(n) =>
        AppendItems(n, b);
        AppendStep(a, n, b);
      case None =>
        AppendLast(a, b);
    }
  }

  /** The shell of a cell with a successor is followed by the shells of
      the rest. */
  lemma AppendStep(a: Cell, n: Cell, b: Option<Cell>)
    requires Next(a) == Some(n)
    requires Items(AppendSubstitute(n, b)) == Items(n) + OItems(b)
    ensures Items(AppendSubstitute(a, b)) == Items(a) + OItems(b)
  {
    var t := AppendSubstitute(n, b);
    ItemsOfLinked(a, n);
    ItemsOfLinked(AppendSubstitute(a, b), t);
    PrependAssoc(Sub(a), Items(n), OItems(b));
  }

  /** The elements of a cell with a successor: its own, then the rest. */
  lemma ItemsOfLinked(c: Cell, n: Cell)
    requires Next(c) == Some(n)
    ensures Items(c) == [Sub(c)] + Items(n)
  {
  }

  lemma PrependAssoc(x: Option<Cell>, u: seq<Option<Cell>>, v: seq<Option<Cell>>)
    ensures [x] + (u + v) == ([x] + u) + v
  {
  }

  /** The shell of the last cell continues with the second list. */
  lemma AppendLast(a: Cell, b: Option<Cell>)
    requires Next(a).None?
    ensures Items(AppendSubstitute(a, b)) == Items(a) + OItems(b)
  {
    assert AppendSubstitute(a, b) == Node(None, Sub(a), b);
    assert Items(a) == [Sub(a)];
  }

  /** Appending two chains of fresh cells gives the chain of all elements. */
  lemma {:induction false} AppendChains(xs: seq<Option<Cell>>, ys: seq<Option<Cell>>)
    requires |xs| >= 1 && |ys| >= 1
    ensures AppendSubstitute(Chain(xs), Some(Chain(ys))) == Chain(xs + ys)
  {
    if |xs| > 1 {
      AppendChains(xs[1..], ys);
      assert (xs + ys)[1..] == xs[1..] + ys;
    }
  }

  // ---------------------------------------------------------------------
  // last and length

  /** The element of the final cell of a chain. */
  function LastItem(s: Cell): Option<Cell>
  {
    Items(s)[|Items(s)| - 1]
  }

  /** `last`: walk `next` to the final cell and take its element. */
  method Last(s: Option<Cell>) returns (r: Result<Option<Cell>>)
    ensures s.None? ==> r == Undefined
    ensures s.Some? ==> r == Ok(LastItem(s.value))
  {
    var focus := s;
    while focus.Some?
      invariant focus.None? ==> s.None?
      invariant focus.Some? ==> s.Some? && LastItem(focus.value) == LastItem(s.value)
      decreases OSize(focus)
    {
      var c := focus.value;
      SubSmaller(c);
      if Next(c).Some? {
        assert Items(c) == [Sub(c)] + Items(Next(c).value);
        focus := Next(c);
      } else {
        break;
      }
    }
    if focus.None? {
      return Undefined;
    }
    r := Ok(Sub(focus.value));
  }

  lemma {:induction false} LastOfChain(xs: seq<Option<Cell>>)
    requires |xs| >= 1
    ensures LastItem(Chain(xs)) == xs[|xs| - 1]
  {
    ItemsOfChain(xs);
  }

  /** The numeral atom `length` returns. */
  function LengthOf(s: Cell): Cell
  {
    Leaf(IntToString(if IsEmptyStructure(s) then 0 else |Items(s)|))
  }

  /** `length`: the count of cells along `next`, or 0 for an empty
      structure, written as a numeral atom. */
  method Length(s: Option<Cell>) returns (r: Result<Cell>)
    ensures s.None? ==> r == Undefined
    ensures s.Some? ==> r == Ok(Leaf(IntToString(if IsEmptyStructure(s.value) then 0 else |Items(s.value)|)))
  {
    if s.None? {
      return Undefined;
    }
    var count := 0;
    if !IsEmptyStructure(s.value) {
      var focus := s;
      while focus.Some?
        invariant count + (match focus case Some(c) => |Items(c)| case None => 0) == |Items(s.value)|
        decreases OSize(focus)
      {
        SubSmaller(focus.value);
        assert Items(focus.value) ==
          [Sub(focus.value)] + match Next(focus.value) case Some(n) => Items(n) case None => [];
        count := count + 1;
        focus := Next(focus.value);
      }
    }
    r := Ok(Leaf(IntToString(count)));
  }

  lemma {:induction false} LengthOfChain(xs: seq<Option<Cell>>)
    requires |xs| >= 1
    ensures LengthOf(Chain(xs)) ==
              Leaf(IntToString(if IsEmptyStructure(Chain(xs)) then 0 else |xs|))
  {
    ItemsOfChain(xs);
  }

  // ---------------------------------------------------------------------
  // number?

  /** The label `isNumber` scans: that of the first element, or of the
      structure itself when it has none. */
  function NumberLabel(s: Cell): Option<string>
  {
    Sym(match Sub(s) case Some(x) => x case None => s)
  }

  function NumberTest(s: Cell): Result<Cell>
  {
    match NumberLabel(s)
    case Some(l) => Ok(Truth(IsNumeral(l)))
    case None => Undefined
  }

  /** `isNumber`: scan the label character by character. */
  method IsNumber(s: Option<Cell>) returns (r: Result<Cell>)
    ensures s.None? ==> r == Undefined
    ensures s.Some? && NumberLabel(s.value).None? ==> r == Undefined
    ensures s.Some? && NumberLabel(s.value).Some? ==> r == Ok(Truth(IsNumeral(NumberLabel(s.value).value)))
  {
    if s.None? {
      return Undefined;
    }
    var found := NumberLabel(s.value);
    if found.None? {
      return Undefined;
    }
    var symbol := found.value;
    var i := 0;
    while i < |symbol|
      invariant 0 <= i <= |symbol|
      invariant forall j :: 0 <= j < i ==> IsDigit(symbol[j]) || (j == 0 && symbol[j] == '-')
    {
      var ch := symbol[i];
      if !IsDigit(ch) && (i != 0 || ch != '-') {
        return Ok(FalseCell);
      }
      i := i + 1;
    }
    r := Ok(TrueCell);
  }

  // ---------------------------------------------------------------------
  // Arithmetic, comparison and logic

  datatype ArithOp = Plus | Minus | Times

  function Apply(op: ArithOp, acc: int, n: int): int
  {
    match op
    case Plus => acc + n
    case Minus => acc - n
    case Times => acc * n
  }

  datatype Comparison = Less | Greater | LessEq | GreaterEq

  /** `lessThan`, `greaterThan`, `lessThanOrEqualTo`, `greaterThanOrEqualTo`. */
  function Compare(op: Comparison, a: int, b: int): (r: Cell)
    ensures r == TrueCell || r == FalseCell
    ensures op == Less ==> (r == TrueCell <==> a < b)
    ensures op == Greater ==> (r == TrueCell <==> a > b)
    ensures op == LessEq ==> (r == TrueCell <==> a <= b)
    ensures op == GreaterEq ==> (r == TrueCell <==> a >= b)
  {
    Truth(match op
          case Less => a < b
          case Greater => a > b
          case LessEq => a <= b
          case GreaterEq => a >= b)
  }

  /** `logicNot`: FALSE exactly for the TRUE sentinel. */
  function LogicNot(s: Option<Cell>): (r: Cell)
    ensures r == FalseCell <==> s == Some(TrueCell)
    ensures r == TrueCell <==> s != Some(TrueCell)
  {
    if s == Some(TrueCell) then FalseCell else TrueCell
  }
}
