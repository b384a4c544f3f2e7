/**
 * The printer of src/parser.c. `recurse_print` walks a chain and emits each
 * atom element as ` sym `, a `(` for each descent into a nested chain, and
 * a `)` where each nested chain ends; `printList` frames that between a
 * leading space and a newline, with the sentinels and bare leaves printed
 * on their own. The output is modelled as the string `printf` would emit;
 * `recurse_print` produces it as a sequence of pieces, so that the
 * brackets it prints can be told apart from brackets inside a symbol.
 */
module Printer {
  import opened Cells
  import opened Parser

  /** What one `printf` of `recurse_print` emits. */
  datatype Piece = Open | Close | Word(text: string)

  /** The characters the pieces stand for. */
  function Text(ps: seq<Piece>): string
  {
    if |ps| == 0 then ""
    else
      (match ps[0]
       case Open => "("
       case Close => ")"
       case Word(s) => " " + s + " ") + Text(ps[1..])
  }

  /** `recurse_print(cell, level)`: the element of `cell`, then the rest of
      its chain; the end of a chain below the top level prints `)`. */
  function RecursePrint(c: Cell, level: nat): seq<Piece>
    decreases Size(c), 0
  {
    SubSmaller(c);
    ElementPrint(Sub(c), level)
      + (match Next(c)
         case Some(n) => RecursePrint(n, level)
         case None => if level != 0 then [Close] else [])
  }

  /** The element part of `recurse_print`: a labelled element is printed
      as its label, any other element as a nested chain. */
  function ElementPrint(sub: Option<Cell>, level: nat): seq<Piece>
    decreases OSize(sub), 1
  {
    match sub
    case None => []
    case Some(s) => if Sym(s).Some? then [Word(Sym(s).value)] else [Open] + RecursePrint(s, level + 1)
  }

  /** `printList`. */
  function PrintList(l: ListRef): (out: string)
    ensures |out| >= 2 && out[0] == ' ' && out[|out| - 1] == '\n'
    ensures l.NullList? || l == Wrap(None) ==> out == " \n"
    ensures l == Wrap(Some(FalseCell)) ==> out == " ()\n"
    ensures l == Wrap(Some(TrueCell)) ==> out == " #t\n"
    ensures l.Wrap? && l.structure.Some? && l.structure.value.Node? && Sym(l.structure.value).Some?
            ==> out == " " + Sym(l.structure.value).value + "\n"
  {
    var body :=
      match l
      case NullList => ""
      case Wrap(None) => ""
      case Wrap(Some(c)) =>
        if c == FalseCell then "()"
        else if c == TrueCell then "#t"
        else if Sym(c).Some? then Sym(c).value
        else "(" + Text(RecursePrint(c, 0)) + ")";
    " " + body + "\n"
  }

  // ---------------------------------------------------------------------
  // The printed brackets balance

  function Weight(p: Piece): int
  {
    match p
    case Open => 1
    case Close => -1
    case Word(_) => 0
  }

  /** Brackets opened minus brackets closed. */
  function Depth(ps: seq<Piece>): int
  {
    if |ps| == 0 then 0 else Weight(ps[0]) + Depth(ps[1..])
  }

  /** Every prefix closes no more brackets than it opened, and the whole
      closes them all. */
  predicate Nested(ps: seq<Piece>)
  {
    Depth(ps) == 0 && forall i :: 0 <= i <= |ps| ==> Depth(ps[..i]) >= 0
  }

  lemma {:induction false} DepthConcat(a: seq<Piece>, b: seq<Piece>)
    ensures Depth(a + b) == Depth(a) + Depth(b)
  {
    if |a| > 0 {
      assert (a + b)[0] == a[0];
      assert (a + b)[1..] == a[1..] + b;
      DepthConcat(a[1..], b);
    } else {
      assert a + b == b;
    }
  }

  lemma NestedConcat(a: seq<Piece>, b: seq<Piece>)
    requires Nested(a) && Nested(b)
    ensures Nested(a + b)
  {
    DepthConcat(a, b);
    forall i | 0 <= i <= |a + b| ensures Depth((a + b)[..i]) >= 0 {
      if i <= |a| {
        assert (a + b)[..i] == a[..i];
      } else {
        assert (a + b)[..i] == a + b[..i - |a|];
        DepthConcat(a, b[..i - |a|]);
      }
    }
  }

  lemma NestedWrap(x: seq<Piece>)
    requires Nested(x)
    ensures Nested([Open] + x + [Close])
  {
    var w := [Open] + x + [Close];
    DepthConcat([Open] + x, [Close]);
    DepthConcat([Open], x);
    forall i | 0 <= i <= |w| ensures Depth(w[..i]) >= 0 {
      if 1 <= i <= |x| + 1 {
        assert w[..i] == [Open] + x[..i - 1];
        DepthConcat([Open], x[..i - 1]);
      } else if i == |w| {
        assert w[..i] == w;
      }
    }
  }

  /** The output of a chain at `level`: balanced at the top, and below the
      top balanced and then closed by one `)`. */
  predicate ChainShape(ps: seq<Piece>, level: nat)
  {
    if level == 0 then Nested(ps) else |ps| >= 1 && ps[|ps| - 1] == Close && Nested(ps[..|ps| - 1])
  }

  /** The top-level chain prints balanced brackets; a nested chain prints
      balanced brackets followed by the `)` that closes it. */
  lemma {:induction false} PrintBalanced(c: Cell, level: nat)
    ensures ChainShape(RecursePrint(c, level), level)
    decreases Size(c), 0
  {
    SubSmaller(c);
    var e := ElementPrint(Sub(c), level);
    ElementBalanced(Sub(c), level);
    match Next(c) {
      case Some(n) =>
        PrintBalanced(n, level);
        assert RecursePrint(c, level) == e + RecursePrint(n, level);
        JoinBalanced(e, RecursePrint(n, level), level);
      case None =>
        var close := if level != 0 then [Close] else [];
        assert RecursePrint(c, level) == e + close;
        assert ChainShape(close, level) by {
          assert Depth([]) == 0;
          if level != 0 {
            assert close[..0] == [];
          }
        }
        JoinBalanced(e, close, level);
    }
  }

  /** A balanced element in front keeps the shape of the rest of a chain. */
  lemma JoinBalanced(e: seq<Piece>, rest: seq<Piece>, level: nat)
    requires Nested(e) && ChainShape(rest, level)
    ensures ChainShape(e + rest, level)
  {
    if level > 0 {
      NestedConcat(e, rest[..|rest| - 1]);
      assert (e + rest)[..|e + rest| - 1] == e + rest[..|rest| - 1];
    } else {
      NestedConcat(e, rest);
    }
  }

  lemma {:induction false} ElementBalanced(sub: Option<Cell>, level: nat)
    ensures Nested(ElementPrint(sub, level))
    decreases OSize(sub), 1
  {
    match sub {
      case None =>
      case Some(s) =>
        if Sym(s).None? {
          PrintBalanced(s, level + 1);
          NestedChain(RecursePrint(s, level + 1));
        } else {
          NestedWord(Sym(s).value);
        }
    }
  }

  lemma NestedWord(s: string)
    ensures Nested([Word(s)])
  {
    assert [Word(s)][..0] == [];
    assert [Word(s)][..1] == [Word(s)];
  }

  /** A nested chain, framed by the `(` printed before it. */
  lemma NestedChain(ps: seq<Piece>)
    requires |ps| >= 1 && ps[|ps| - 1] == Close && Nested(ps[..|ps| - 1])
    ensures Nested([Open] + ps)
  {
    var x := ps[..|ps| - 1];
    NestedWrap(x);
    assert ps == x + [Close];
    assert [Open] + ps == [Open] + x + [Close];
  }

  /** What `printList` prints for a chain: the brackets it frames the chain
      with and the brackets inside it balance. */
  lemma ListOutputBalanced(c: Cell)
    ensures Nested([Open] + RecursePrint(c, 0) + [Close])
    ensures Text([Open] + RecursePrint(c, 0) + [Close]) == "(" + Text(RecursePrint(c, 0)) + ")"
  {
    PrintBalanced(c, 0);
    NestedWrap(RecursePrint(c, 0));
    TextConcat([Open] + RecursePrint(c, 0), [Close]);
    TextConcat([Open], RecursePrint(c, 0));
  }

  lemma {:induction false} TextConcat(a: seq<Piece>, b: seq<Piece>)
    ensures Text(a + b) == Text(a) + Text(b)
  {
    if |a| > 0 {
      assert (a + b)[0] == a[0];
      assert (a + b)[1..] == a[1..] + b;
      TextConcat(a[1..], b);
    } else {
      assert a + b == b;
    }
  }

  // ---------------------------------------------------------------------
  // Printing what the reader built

  /** The tokens a printed piece stands for. */
  function TokensOf(ps: seq<Piece>): seq<string>
  {
    if |ps| == 0 then []
    else
      [match ps[0]
       case Open => "("
       case Close => ")"
       case Word(s) => s] + TokensOf(ps[1..])
  }

  lemma {:induction false} TokensOfConcat(a: seq<Piece>, b: seq<Piece>)
    ensures TokensOf(a + b) == TokensOf(a) + TokensOf(b)
  {
    if |a| > 0 {
      assert (a + b)[0] == a[0];
      assert (a + b)[1..] == a[1..] + b;
      TokensOfConcat(a[1..], b);
    } else {
      assert a + b == b;
    }
  }

  /** An expression with every shorthand `'x` spelled out as `(quote x)`. */
  function Desugar(e: SExpr): (d: SExpr)
    decreases e, 1
  {
    match e
    case Atom(n) => e
    case ListOf(es) => ListOf(DesugarAll(es))
    case Quote(q) => ListOf([Atom("quote"), Desugar(q)])
  }

  function DesugarAll(es: seq<SExpr>): (ds: seq<SExpr>)
    ensures |ds| == |es|
    decreases es, 0
  {
    if |es| == 0 then [] else [Desugar(es[0])] + DesugarAll(es[1..])
  }

  /** The tokens printed for the chain of a list's elements. */
  lemma {:induction false} ChainTokens(es: seq<SExpr>, level: nat)
    requires |es| >= 1 && forall i :: 0 <= i < |es| ==> WellFormed(es[i])
    ensures TokensOf(RecursePrint(Chain(Trees(es)), level))
            == TokensAll(DesugarAll(es)) + (if level == 0 then [] else [")"])
    decreases es, 0
  {
    var xs := Trees(es);
    assert xs[0] == Some(Tree(es[0]));
    ElementTokens(es[0], level);
    var e := ElementPrint(Some(Tree(es[0])), level);
    if |es| == 1 {
      assert Chain(xs) == Node(None, xs[0], None);
      assert DesugarAll(es) == [Desugar(es[0])];
      assert DesugarAll(es)[1..] == [];
      TokensOfConcat(e, if level != 0 then [Close] else []);
    } else {
      assert xs[1..] == Trees(es[1..]);
      assert Chain(xs) == Node(None, xs[0], Some(Chain(Trees(es[1..]))));
      forall i | 0 <= i < |es[1..]| ensures WellFormed(es[1..][i]) {
        assert es[1..][i] == es[i + 1];
      }
      ChainTokens(es[1..], level);
      TokensOfConcat(e, RecursePrint(Chain(Trees(es[1..])), level));
      assert DesugarAll(es)[1..] == DesugarAll(es[1..]);
    }
  }

  /** A parsed element prints as the tokens of its desugared form. */
  lemma {:induction false} ElementTokens(x: SExpr, level: nat)
    requires WellFormed(x)
    ensures TokensOf(ElementPrint(Some(Tree(x)), level)) == Tokens(Desugar(x))
    decreases x, 1
  {
    match x {
      case Atom(n) =>
      case ListOf(es) =>
        ChainTokens(es, level + 1);
        TokensOfConcat([Open], RecursePrint(Tree(x), level + 1));
      case Quote(q) =>
        ElementTokens(q, level + 1);
        QuoteTokens(q, level);
    }
  }

  /** The `(quote x)` chain prints as `( quote x )`. */
  lemma QuoteTokens(q: SExpr, level: nat)
    requires TokensOf(ElementPrint(Some(Tree(q)), level + 1)) == Tokens(Desugar(q))
    ensures TokensOf(ElementPrint(Some(Tree(Quote(q))), level)) == Tokens(Desugar(Quote(q)))
  {
    var t := Tree(q);
    var tail := Node(None, Some(t), None);
    var inner := RecursePrint(tail, level + 1);
    assert inner == ElementPrint(Some(t), level + 1) + [Close];
    TokensOfConcat(ElementPrint(Some(t), level + 1), [Close]);
    assert RecursePrint(QuoteOf(t), level + 1) == [Word("quote")] + inner;
    assert ElementPrint(Some(QuoteOf(t)), level) == [Open] + ([Word("quote")] + inner);
    TokensOfConcat([Open], [Word("quote")] + inner);
    TokensOfConcat([Word("quote")], inner);
    var d := [Atom("quote"), Desugar(q)];
    assert d[1..] == [Desugar(q)];
    assert [Desugar(q)][1..] == [];
    assert TokensAll([Desugar(q)]) == Tokens(Desugar(q)) + TokensAll([]);
    assert TokensAll(d) == ["quote"] + Tokens(Desugar(q));
  }

  /** The tokens `printList` emits for a tree the reader built. */
  function PrintedTokens(c: Cell): seq<string>
  {
    if Sym(c).Some? then [Sym(c).value] else TokensOf([Open] + RecursePrint(c, 0) + [Close])
  }

  /** A tree the reader built prints as the tokens of its desugared
      expression. */
  lemma PrintedTokensOfTree(e: SExpr)
    requires WellFormed(e)
    ensures PrintedTokens(Tree(e)) == Tokens(Desugar(e))
  {
    match e {
      case Atom(n) =>
      case ListOf(es) =>
        PrintedListTokens(es);
      case Quote(q) =>
        PrintedQuoteTokens(q);
    }
  }

  /** The list case of `PrintedTokensOfTree`. */
  lemma PrintedListTokens(es: seq<SExpr>)
    requires WellFormed(ListOf(es))
    ensures PrintedTokens(Tree(ListOf(es))) == Tokens(Desugar(ListOf(es)))
  {
    var e := ListOf(es);
    ElementTokens(e, 0);
    ChainTokens(es, 1);
    ChainTokens(es, 0);
    TokensOfConcat([Open] + RecursePrint(Tree(e), 0), [Close]);
    TokensOfConcat([Open], RecursePrint(Tree(e), 0));
  }

  /** The quote case of `PrintedTokensOfTree`: `'q` prints as `(quote q)`. */
  lemma PrintedQuoteTokens(q: SExpr)
    requires WellFormed(Quote(q))
    ensures PrintedTokens(Tree(Quote(q))) == Tokens(Desugar(Quote(q)))
  {
    var t := Tree(q);
    var tail := Node(None, Some(t), None);
    ElementTokens(q, 0);
    TokensOfConcat(ElementPrint(Some(t), 0), []);
    assert ElementPrint(Some(t), 0) + [] == ElementPrint(Some(t), 0);
    assert RecursePrint(QuoteOf(t), 0) == [Word("quote")] + RecursePrint(tail, 0);
    TokensOfConcat([Open] + RecursePrint(QuoteOf(t), 0), [Close]);
    TokensOfConcat([Open], RecursePrint(QuoteOf(t), 0));
    TokensOfConcat([Word("quote")], RecursePrint(tail, 0));
    var d := [Atom("quote"), Desugar(q)];
    assert d[1..] == [Desugar(q)];
    assert [Desugar(q)][1..] == [];
    assert TokensAll([Desugar(q)]) == Tokens(Desugar(q)) + TokensAll([]);
    assert TokensAll(d) == ["quote"] + Tokens(Desugar(q));
  }

  /** Spelling out the shorthand keeps the tree and the well-formedness. */
  lemma {:induction false} DesugarKeepsTree(e: SExpr)
    requires WellFormed(e)
    ensures WellFormed(Desugar(e)) && Tree(Desugar(e)) == Tree(e)
    decreases e, 1
  {
    match e {
      case Atom(n) =>
      case ListOf(es) =>
        DesugarAllKeepsTrees(es);
      case Quote(q) =>
        DesugarKeepsTree(q);
        var d := [Atom("quote"), Desugar(q)];
        assert d[1..] == [Desugar(q)];
        assert WellFormed(d[0]) && WellFormed(d[1]);
        assert [Desugar(q)][1..] == [];
        assert Trees([Desugar(q)]) == [Some(Tree(Desugar(q)))] + Trees([]);
        var xs := Trees(d);
        assert xs == [Some(Tree(d[0]))] + Trees(d[1..]);
        assert xs == [Some(Leaf("quote")), Some(Tree(q))];
        assert xs[1..] == [Some(Tree(q))];
        assert Tree(Desugar(e)) == Chain(xs) == QuoteOf(Tree(q));
    }
  }

  lemma {:induction false} DesugarAllKeepsTrees(es: seq<SExpr>)
    requires forall i :: 0 <= i < |es| ==> WellFormed(es[i])
    ensures forall i :: 0 <= i < |es| ==> WellFormed(DesugarAll(es)[i])
    ensures Trees(DesugarAll(es)) == Trees(es)
    decreases es, 0
  {
    if |es| > 0 {
      DesugarKeepsTree(es[0]);
      forall i | 0 <= i < |es[1..]| ensures WellFormed(es[1..][i]) {
        assert es[1..][i] == es[i + 1];
      }
      DesugarAllKeepsTrees(es[1..]);
      var ds := DesugarAll(es);
      forall i | 0 <= i < |ds| ensures WellFormed(ds[i]) {
        if i > 0 {
          assert ds[i] == DesugarAll(es[1..])[i - 1];
        }
      }
      assert ds[1..] == DesugarAll(es[1..]);
    }
  }

  /** `printList` writes a tree the reader built as a label on its own or
      as the text of the pieces `recurse_print` emits between brackets; the
      tokens of what it writes, read back, rebuild the same tree. */
  lemma PrintThenRead(e: SExpr, rest: seq<string>)
    requires WellFormed(e)
    ensures Sym(Tree(e)).Some? ==>
              PrintList(Wrap(Some(Tree(e)))) == " " + Sym(Tree(e)).value + "\n"
              && PrintedTokens(Tree(e)) == [Sym(Tree(e)).value]
    ensures Sym(Tree(e)).None? ==>
              PrintList(Wrap(Some(Tree(e)))) == " " + Text([Open] + RecursePrint(Tree(e), 0) + [Close]) + "\n"
              && PrintedTokens(Tree(e)) == TokensOf([Open] + RecursePrint(Tree(e), 0) + [Close])
    ensures Read(PrintedTokens(Tree(e)) + rest, 0).Parsed?
    ensures Read(PrintedTokens(Tree(e)) + rest, 0).tree == Tree(e)
  {
    ListOutputBalanced(Tree(e));
    PrintedTokensOfTree(e);
    DesugarKeepsTree(e);
    ReadOf(Desugar(e), rest);
  }
}
