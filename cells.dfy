/**
 * The cons-cell tree shared by the reader, the evaluator and the printer.
 *
 * A `Cell` carries an optional symbol, `sub` (the element held in this slot)
 * and `next` (the rest of the chain at the same level). The two process-wide
 * sentinels TRUE and FALSE are empty cells that the C code recognises by
 * pointer identity; here they are constructors of their own, so identity with
 * a sentinel is a pattern test. Cells are never changed once built, so a
 * datatype describes them exactly; sharing is not observable.
 */
module Cells {

  datatype Option<+T> = None | Some(value: T)

  /** Outcome of an operation: a value, or a point where the C code has
      undefined behaviour (a NULL dereference, `strcmp` on NULL), or, for the
      evaluator only, the fuel bound being reached. */
  datatype Result<+T> = Ok(value: T) | Undefined | OutOfFuel

  datatype Cell =
    | Node(sym: Option<string>, sub: Option<Cell>, next: Option<Cell>)
    | TrueCell
    | FalseCell

  /** The `List` wrapper: NULL itself (what `define` returns) or a wrapper
      whose `mStructure` may be NULL (for instance after `car` of an atom). */
  datatype ListRef = NullList | Wrap(structure: Option<Cell>)

  /** Field reads; a sentinel reads as an empty cell. */
  function Sym(c: Cell): Option<string> { if c.Node? then c.sym else None }
  function Sub(c: Cell): Option<Cell> { if c.Node? then c.sub else None }
  function Next(c: Cell): Option<Cell> { if c.Node? then c.next else None }

  /** `iniCell`: a freshly allocated cell with every field NULL. */
  function IniCell(): Cell { Node(None, None, None) }

  function Leaf(s: string): Cell { Node(Some(s), None, None) }

  /** The `#f` leaf that `iniAssocList` and a failed lookup allocate. */
  function FalseLeaf(): Cell { Leaf("#f") }

  /** `iniAssocList`: an association list with no binding. */
  function IniAssocList(): (c: Cell)
    ensures Sub(c).None? && Next(c).None? && Sym(c) == Some("#f")
  {
    FalseLeaf()
  }

  function Size(c: Cell): nat
  {
    match c
    case Node(_, s, n) =>
      1 + (match s case Some(x) => Size(x) case None => 0)
        + (match n case Some(y) => Size(y) case None => 0)
    case _ => 1
  }

  function OSize(o: Option<Cell>): nat
  {
    match o
    case Some(c) => Size(c)
    case None => 0
  }

  lemma SubSmaller(c: Cell)
    ensures Sub(c).Some? ==> Size(Sub(c).value) < Size(c)
    ensures Next(c).Some? ==> Size(Next(c).value) < Size(c)
  {}

  // ---------------------------------------------------------------------
  // Chains

  /** The elements of the chain that starts at `c`: the `sub` of every cell
      reached through `next`, in order (a missing `sub` is `None`). */
  function Items(c: Cell): (r: seq<Option<Cell>>)
    ensures |r| >= 1 && r[0] == Sub(c)
    decreases Size(c)
  {
    SubSmaller(c);
    [Sub(c)] + (match Next(c) case Some(n) => Items(n) case None => [])
  }

  /** A chain of fresh cells whose elements are `xs`; no element gives one
      empty cell. */
  function Chain(xs: seq<Option<Cell>>): Cell
  {
    if |xs| == 0 then IniCell()
    else if |xs| == 1 then Node(None, xs[0], None)
    else Node(None, xs[0], Some(Chain(xs[1..])))
  }

  lemma {:induction false} ItemsOfChain(xs: seq<Option<Cell>>)
    requires |xs| >= 1
    ensures Items(Chain(xs)) == xs
  {
    if |xs| > 1 {
      ItemsOfChain(xs[1..]);
    }
  }

  // ---------------------------------------------------------------------
  // isEmptyStructure

  /** Labels that `isEmptyStructure` ignores. */
  const Reserved: set<string> := {"quote", "()", "#f", "#t"}

  /** Every symbol reachable from `c` through `sub` and `next`. */
  function Labels(c: Cell): set<string>
    decreases Size(c)
  {
    SubSmaller(c);
    (match Sym(c) case Some(s) => {s} case None => {})
      + (match Sub(c) case Some(s) => Labels(s) case None => {})
      + (match Next(c) case Some(n) => Labels(n) case None => {})
  }

  /** `isEmptyStructure`, branch for branch. */
  function IsEmptyStructure(c: Cell): bool
    decreases Size(c)
  {
    SubSmaller(c);
    if Sym(c).Some? && Sym(c).value !in Reserved then false
    else
      var down := match Sub(c) case Some(s) => IsEmptyStructure(s) case None => true;
      down && match Next(c) case Some(n) => IsEmptyStructure(n) case None => true
  }

  /** A structure is empty exactly when it holds no label but the reserved
      ones. */
  lemma {:induction false} IsEmptyStructureIff(c: Cell)
    ensures IsEmptyStructure(c) <==> Labels(c) <= Reserved
    decreases Size(c)
  {
    SubSmaller(c);
    if Sub(c).Some? {
      IsEmptyStructureIff(Sub(c).value);
    }
    if Next(c).Some? {
      IsEmptyStructureIff(Next(c).value);
    }
  }

  // ---------------------------------------------------------------------
  // compareEqual

  /** The shape of a tree: the same tree with every sentinel read as the
      empty cell it is in memory. */
  function Shape(c: Cell): Cell
    decreases Size(c)
  {
    SubSmaller(c);
    Node(Sym(c),
         match Sub(c) case Some(s) => Some(Shape(s)) case None => None,
         match Next(c) case Some(n) => Some(Shape(n)) case None => None)
  }

  /** `compareEqual`: symbols must agree (both absent or equal text), then
      the presence and contents of `sub`, then of `next`. */
  function CompareEqual(a: Cell, b: Cell): bool
    decreases Size(a)
  {
    SubSmaller(a);
    SubSmaller(b);
    if Sym(a) != Sym(b) then false
    else if Sub(a).Some? != Sub(b).Some? then false
    else if Sub(a).Some? && !CompareEqual(Sub(a).value, Sub(b).value) then false
    else if Next(a).Some? != Next(b).Some? then false
    else if Next(a).Some? then CompareEqual(Next(a).value, Next(b).value)
    else true
  }

  /** `compareEqual` succeeds exactly when the two trees have the same
      shape. */
  lemma {:induction false} CompareEqualIsShapeEquality(a: Cell, b: Cell)
    ensures CompareEqual(a, b) <==> Shape(a) == Shape(b)
    decreases Size(a)
  {
    SubSmaller(a);
    SubSmaller(b);
    if Sub(a).Some? && Sub(b).Some? {
      CompareEqualIsShapeEquality(Sub(a).value, Sub(b).value);
    }
    if Next(a).Some? && Next(b).Some? {
      CompareEqualIsShapeEquality(Next(a).value, Next(b).value);
    }
  }

  /** Hence `equal?` is reflexive, symmetric and transitive. */
  lemma CompareEqualIsEquivalence(a: Cell, b: Cell, c: Cell)
    ensures CompareEqual(a, a)
    ensures CompareEqual(a, b) == CompareEqual(b, a)
    ensures CompareEqual(a, b) && CompareEqual(b, c) ==> CompareEqual(a, c)
  {
    CompareEqualIsShapeEquality(a, a);
    CompareEqualIsShapeEquality(a, b);
    CompareEqualIsShapeEquality(b, a);
    CompareEqualIsShapeEquality(b, c);
    CompareEqualIsShapeEquality(a, c);
  }
}
