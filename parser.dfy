/**
 * The reader of src/parser.c. `recurse_express` builds the cell tree of one
 * expression from a stream of tokens: an atom becomes a leaf, `( e1 … en )`
 * a chain of n cells whose elements are the parsed ei, and the shorthand
 * `'x` the two-element chain `(quote x)`. The lexer is not modelled: the
 * token stream is a given sequence, and a token is pulled by advancing a
 * cursor over it. Pulling past the last token ends the parse with
 * `EndOfInput`.
 */
module Parser {
  import opened Cells

  /** The outcome of parsing one expression: its tree and the index of the
      token the parse stopped on (the atom itself, or the closing `)`), or
      the end of the token stream reached too early. */
  datatype Parse = Parsed(tree: Cell, last: nat) | EndOfInput

  /** The `(quote x)` chain that the shorthand `'x` builds. */
  function QuoteOf(x: Cell): Cell
  {
    Node(None, Some(Leaf("quote")), Some(Node(None, Some(x), None)))
  }

  // ---------------------------------------------------------------------
  // The parse, as functions of the token sequence

  /** `recurse_express` started with token `p` current. */
  function ParseExpr(toks: seq<string>, p: nat): (r: Parse)
    requires p < |toks|
    ensures r.Parsed? ==> p <= r.last < |toks|
    decreases |toks| - p, 1
  {
    if toks[p] == "'" then
      if p + 1 >= |toks| then EndOfInput
      else if toks[p + 1] != "(" then Parsed(QuoteOf(Leaf(toks[p + 1])), p + 1)
      else
        (match ParseList(toks, p + 1)
         case Parsed(l, last) => Parsed(QuoteOf(l), last)
         case EndOfInput => EndOfInput)
    else if toks[p] == "(" then ParseList(toks, p)
    else Parsed(Leaf(toks[p]), p)
  }

  /** The list opened by the `(` at `p`: its first element, then the rest. */
  function ParseList(toks: seq<string>, p: nat): (r: Parse)
    requires p < |toks|
    ensures r.Parsed? ==> p < r.last < |toks|
    decreases |toks| - p, 0
  {
    if p + 1 >= |toks| then EndOfInput
    else
      match ParseExpr(toks, p + 1)
      case EndOfInput => EndOfInput
      case Parsed(first, q) => ParseItems(toks, q, [Some(first)])
  }

  /** The `while` loop of `recurse_express`: `items` parsed so far, the last
      of them ending at token `q`; a `)` after it closes the chain. */
  function ParseItems(toks: seq<string>, q: nat, items: seq<Option<Cell>>): (r: Parse)
    requires q < |toks|
    ensures r.Parsed? ==> q < r.last < |toks|
    decreases |toks| - q, 2
  {
    if q + 1 >= |toks| then EndOfInput
    else if toks[q + 1] == ")" then Parsed(Chain(items), q + 1)
    else
      match ParseExpr(toks, q + 1)
      case EndOfInput => EndOfInput
      case Parsed(e, q') => ParseItems(toks, q', items + [Some(e)])
  }

  /** `S_Expression` with `n` tokens already pulled: pull one and parse. */
  function Read(toks: seq<string>, n: nat): (r: Parse)
    ensures n >= |toks| ==> r == EndOfInput
    ensures r.Parsed? ==> n <= r.last < |toks|
  {
    if n < |toks| then ParseExpr(toks, n) else EndOfInput
  }

  // ---------------------------------------------------------------------
  // The reader, as the C code runs it

  /** The token stream and the global cursor `mToken` of src/parser.c:
      `pulled` tokens have been handed out, the last of them is current. */
  class Reader {
    const tokens: seq<string>
    var pulled: nat

    predicate Valid()
      reads this
    {
      pulled <= |tokens|
    }

    constructor (toks: seq<string>)
      ensures Valid() && tokens == toks && pulled == 0
    {
      tokens := toks;
      pulled := 0;
    }

    /** The current token, `mToken`. */
    function Current(): string
      reads this
      requires 1 <= pulled <= |tokens|
    {
      tokens[pulled - 1]
    }

    /** `getToken`: make the next token current, unless there is none. */
    method GetToken() returns (ok: bool)
      requires Valid()
      modifies this
      ensures Valid()
      ensures ok == (old(pulled) < |tokens|)
      ensures pulled == if ok then old(pulled) + 1 else old(pulled)
    {
      ok := pulled < |tokens|;
      if ok {
        pulled := pulled + 1;
      }
    }

    /** `recurse_express`: parse the expression that starts at the current
        token, leaving its last token current. */
    method RecurseExpress() returns (r: Parse)
      requires 1 <= pulled <= |tokens|
      modifies this
      ensures Valid()
      ensures r == ParseExpr(tokens, old(pulled) - 1)
      ensures r.Parsed? ==> pulled == r.last + 1
      decreases |tokens| - pulled, 1
    {
      var shortHand := false;
      if Current() == "'" {
        var ok := GetToken();
        if !ok {
          return EndOfInput;
        }
        if Current() != "(" {
          return Parsed(QuoteOf(Leaf(Current())), pulled - 1);
        }
        shortHand := true;
      }
      if Current() == "(" {
        var list := ReadList();
        if list.EndOfInput? {
          return EndOfInput;
        }
        if shortHand {
          r := Parsed(QuoteOf(list.tree), list.last);
        } else {
          r := list;
        }
      } else {
        r := Parsed(Leaf(Current()), pulled - 1);
      }
    }

    /** The `(` branch of `recurse_express`: the first element, then the
        loop that chains further elements until the closing `)`. */
    method ReadList() returns (r: Parse)
      requires 1 <= pulled <= |tokens| && Current() == "("
      modifies this
      ensures Valid()
      ensures r == ParseList(tokens, old(pulled) - 1)
      ensures r.Parsed? ==> pulled == r.last + 1
      decreases |tokens| - pulled, 0
    {
      ghost var open := pulled - 1;
      var ok := GetToken();
      if !ok {
        return EndOfInput;
      }
      var first := RecurseExpress();
      if first.EndOfInput? {
        return EndOfInput;
      }
      var items := [Some(first.tree)];
      ok := GetToken();
      if !ok {
        return EndOfInput;
      }
      while Current() != ")"
        invariant 2 <= pulled <= |tokens|
        invariant ParseItems(tokens, pulled - 2, items) == ParseList(tokens, open)
        decreases |tokens| - pulled
      {
        ghost var before := items;
        ghost var q := pulled - 2;
        var e := RecurseExpress();
        if e.EndOfInput? {
          return EndOfInput;
        }
        items := items + [Some(e.tree)];
        assert ParseItems(tokens, q, before) == ParseItems(tokens, e.last, items);
        ok := GetToken();
        if !ok {
          return EndOfInput;
        }
      }
      r := Parsed(Chain(items), pulled - 1);
    }

    /** `S_Expression`: pull the first token of the next expression and
        parse it. */
    method SExpression() returns (r: Parse)
      requires Valid()
      modifies this
      ensures Valid()
      ensures r == Read(tokens, old(pulled))
      ensures r.Parsed? ==> pulled == r.last + 1
    {
      var ok := GetToken();
      if !ok {
        return EndOfInput;
      }
      r := RecurseExpress();
    }
  }

  // ---------------------------------------------------------------------
  // Properties: the grammar the reader accepts

  /** Expressions as written. */
  datatype SExpr = Atom(name: string) | ListOf(elems: seq<SExpr>) | Quote(quoted: SExpr)

  /** What the reader reads back: atoms that are not punctuation, lists with
      at least one element, and the shorthand applied to an atom or a list. */
  predicate WellFormed(e: SExpr)
    decreases e
  {
    match e
    case Atom(n) => n != "(" && n != ")" && n != "'"
    case ListOf(es) => |es| >= 1 && forall i :: 0 <= i < |es| ==> WellFormed(es[i])
    case Quote(q) => !q.Quote? && WellFormed(q)
  }

  /** The tokens of an expression. */
  function Tokens(e: SExpr): seq<string>
    decreases e, 1
  {
    match e
    case Atom(n) => [n]
    case ListOf(es) => ["("] + TokensAll(es) + [")"]
    case Quote(q) => ["'"] + Tokens(q)
  }

  function TokensAll(es: seq<SExpr>): seq<string>
    decreases es, 0
  {
    if |es| == 0 then [] else Tokens(es[0]) + TokensAll(es[1..])
  }

  /** The tree an expression denotes. */
  function Tree(e: SExpr): Cell
    decreases e, 1
  {
    match e
    case Atom(n) => Leaf(n)
    case ListOf(es) => Chain(Trees(es))
    case Quote(q) => QuoteOf(Tree(q))
  }

  function Trees(es: seq<SExpr>): (r: seq<Option<Cell>>)
    ensures |r| == |es|
    decreases es, 0
  {
    if |es| == 0 then [] else [Some(Tree(es[0]))] + Trees(es[1..])
  }

  lemma SplitSlice(toks: seq<string>, p: nat, a: seq<string>, b: seq<string>)
    requires p + |a| + |b| <= |toks| && toks[p..p + |a| + |b|] == a + b
    ensures toks[p..p + |a|] == a && toks[p + |a|..p + |a| + |b|] == b
  {
    assert toks[p..p + |a|] == (a + b)[..|a|];
    assert toks[p + |a|..p + |a| + |b|] == (a + b)[|a|..];
  }

  /** A well-formed expression never starts with a closing bracket. */
  lemma FirstToken(e: SExpr)
    requires WellFormed(e)
    ensures |Tokens(e)| >= 1 && Tokens(e)[0] != ")"
  {
    match e {
      case Atom(n) =>
      case ListOf(es) =>
      case Quote(q) =>
    }
  }

  /** Started on the first token of a well-formed expression, the reader
      returns its tree and stops on its last token, whatever follows. */
  lemma {:induction false} ParseExprOf(toks: seq<string>, p: nat, e: SExpr)
    requires WellFormed(e)
    requires p + |Tokens(e)| <= |toks| && toks[p..p + |Tokens(e)|] == Tokens(e)
    ensures |Tokens(e)| >= 1
    ensures ParseExpr(toks, p) == Parsed(Tree(e), p + |Tokens(e)| - 1)
    decreases e, 2
  {
    match e {
      case Atom(n) =>
        assert toks[p] == Tokens(e)[0];
      case ListOf(es) =>
        ParseListAt(toks, p, es);
      case Quote(q) =>
        ParseQuoteAt(toks, p, q);
    }
  }

  /** The list case of `ParseExprOf`. */
  lemma ParseListAt(toks: seq<string>, p: nat, es: seq<SExpr>)
    requires WellFormed(ListOf(es))
    requires p + |Tokens(ListOf(es))| <= |toks| && toks[p..p + |Tokens(ListOf(es))|] == Tokens(ListOf(es))
    ensures ParseExpr(toks, p) == Parsed(Tree(ListOf(es)), p + |Tokens(ListOf(es))| - 1)
    decreases es, 2
  {
    SplitSlice(toks, p, ["("] + TokensAll(es), [")"]);
    SplitSlice(toks, p, ["("], TokensAll(es));
    assert toks[p] == "(";
    ParseListOf(toks, p, es);
  }

  /** The quote case of `ParseExprOf`: `'` and then an atom or a list. */
  lemma ParseQuoteAt(toks: seq<string>, p: nat, q: SExpr)
    requires WellFormed(Quote(q))
    requires p + |Tokens(Quote(q))| <= |toks| && toks[p..p + |Tokens(Quote(q))|] == Tokens(Quote(q))
    ensures ParseExpr(toks, p) == Parsed(Tree(Quote(q)), p + |Tokens(Quote(q))| - 1)
    decreases q, 3
  {
    SplitSlice(toks, p, ["'"], Tokens(q));
    assert toks[p] == "'";
    match q {
      case Atom(n) =>
        assert toks[p + 1] == Tokens(q)[0];
      case ListOf(es) =>
        SplitSlice(toks, p + 1, ["("] + TokensAll(es), [")"]);
        SplitSlice(toks, p + 1, ["("], TokensAll(es));
        assert toks[p + 1] == "(";
        ParseListOf(toks, p + 1, es);
    }
  }

  /** `( e1 … en )` with n >= 1 is the chain of the n trees. */
  lemma {:induction false} ParseListOf(toks: seq<string>, p: nat, es: seq<SExpr>)
    requires |es| >= 1 && forall i :: 0 <= i < |es| ==> WellFormed(es[i])
    requires p + |TokensAll(es)| + 2 <= |toks|
    requires toks[p] == "(" && toks[p + 1..p + 1 + |TokensAll(es)|] == TokensAll(es)
    requires toks[p + 1 + |TokensAll(es)|] == ")"
    ensures ParseList(toks, p) == Parsed(Chain(Trees(es)), p + 1 + |TokensAll(es)|)
    decreases es, 1
  {
    var t0 := Tokens(es[0]);
    SplitSlice(toks, p + 1, t0, TokensAll(es[1..]));
    ParseExprOf(toks, p + 1, es[0]);
    forall i | 0 <= i < |es[1..]| ensures WellFormed(es[1..][i]) {
      assert es[1..][i] == es[i + 1];
    }
    ParseItemsOf(toks, p + |t0|, [Some(Tree(es[0]))], es[1..]);
  }

  /** The tokens of a list's first element, then those of the rest, then
      its closing bracket. */
  lemma SliceStep(toks: seq<string>, q: nat, t0: seq<string>, tr: seq<string>)
    requires q + |t0| + |tr| + 2 <= |toks|
    requires toks[q + 1..q + 1 + (|t0| + |tr|)] == t0 + tr
    requires toks[q + 1 + (|t0| + |tr|)] == ")"
    ensures toks[q + 1..q + 1 + |t0|] == t0
    ensures toks[q + |t0| + 1..q + |t0| + 1 + |tr|] == tr
    ensures toks[q + |t0| + 1 + |tr|] == ")"
  {
    SplitSlice(toks, q + 1, t0, tr);
    assert q + |t0| + 1 == q + 1 + |t0|;
  }

  /** One turn of the list loop reads one whole element. */
  lemma ParseItemsStep(toks: seq<string>, q: nat, items: seq<Option<Cell>>, e: SExpr)
    requires WellFormed(e)
    requires q + 1 + |Tokens(e)| <= |toks| && toks[q + 1..q + 1 + |Tokens(e)|] == Tokens(e)
    ensures q + |Tokens(e)| < |toks|
    ensures ParseItems(toks, q, items) == ParseItems(toks, q + |Tokens(e)|, items + [Some(Tree(e))])
    decreases e, 3
  {
    FirstToken(e);
    assert toks[q + 1] == Tokens(e)[0];
    ParseExprOf(toks, q + 1, e);
  }

  /** The loop reads elements up to the closing `)`. */
  lemma {:induction false} ParseItemsOf(toks: seq<string>, q: nat, items: seq<Option<Cell>>, es: seq<SExpr>)
    requires forall i :: 0 <= i < |es| ==> WellFormed(es[i])
    requires q + |TokensAll(es)| + 2 <= |toks|
    requires toks[q + 1..q + 1 + |TokensAll(es)|] == TokensAll(es)
    requires toks[q + 1 + |TokensAll(es)|] == ")"
    ensures ParseItems(toks, q, items) == Parsed(Chain(items + Trees(es)), q + 1 + |TokensAll(es)|)
    decreases es, 1
  {
    if |es| == 0 {
      assert items + Trees(es) == items;
      assert |TokensAll(es)| == 0;
      assert ParseItems(toks, q, items) == Parsed(Chain(items), q + 1);
    } else {
      var x := Some(Tree(es[0]));
      var q' := q + |Tokens(es[0])|;
      var tail := es[1..];
      ParseItemsHead(toks, q, items, es);
      ItemsTail(items, es);
      ParseItemsOf(toks, q', items + [x], tail);
    }
  }

  /** What is left of the loop's elements after the first: still
      well-formed, and their trees complete the chain. */
  lemma ItemsTail(items: seq<Option<Cell>>, es: seq<SExpr>)
    requires |es| >= 1
    requires forall i :: 0 <= i < |es| ==> WellFormed(es[i])
    ensures forall i :: 0 <= i < |es[1..]| ==> WellFormed(es[1..][i])
    ensures items + [Some(Tree(es[0]))] + Trees(es[1..]) == items + Trees(es)
  {
    var tail := es[1..];
    forall i | 0 <= i < |tail| ensures WellFormed(tail[i]) {
      assert tail[i] == es[i + 1];
    }
    assert Trees(es) == [Some(Tree(es[0]))] + Trees(tail);
  }

  /** The first element of the loop, read as a whole, leaves the tokens of
      the rest and the closing bracket. */
  lemma ParseItemsHead(toks: seq<string>, q: nat, items: seq<Option<Cell>>, es: seq<SExpr>)
    requires |es| >= 1 && WellFormed(es[0])
    requires q + |TokensAll(es)| + 2 <= |toks|
    requires toks[q + 1..q + 1 + |TokensAll(es)|] == TokensAll(es)
    requires toks[q + 1 + |TokensAll(es)|] == ")"
    ensures |TokensAll(es)| == |Tokens(es[0])| + |TokensAll(es[1..])|
    ensures var q' := q + |Tokens(es[0])|;
            toks[q' + 1..q' + 1 + |TokensAll(es[1..])|] == TokensAll(es[1..])
            && toks[q' + 1 + |TokensAll(es[1..])|] == ")"
            && ParseItems(toks, q, items) == ParseItems(toks, q', items + [Some(Tree(es[0]))])
    decreases es, 0
  {
    var t0 := Tokens(es[0]);
    var tr := TokensAll(es[1..]);
    assert TokensAll(es) == t0 + tr;
    SliceStep(toks, q, t0, tr);
    ParseItemsStep(toks, q, items, es[0]);
  }

  /** The elements of a parsed list are the parses of its elements. */
  lemma ListElements(es: seq<SExpr>)
    requires |es| >= 1
    ensures Items(Tree(ListOf(es))) == Trees(es)
    ensures forall i :: 0 <= i < |es| ==> Trees(es)[i] == Some(Tree(es[i]))
  {
    ItemsOfChain(Trees(es));
    TreesIndex(es);
  }

  lemma {:induction false} TreesIndex(es: seq<SExpr>)
    ensures forall i :: 0 <= i < |es| ==> Trees(es)[i] == Some(Tree(es[i]))
  {
    if |es| > 0 {
      TreesIndex(es[1..]);
      forall i | 1 <= i < |es| ensures Trees(es)[i] == Some(Tree(es[i])) {
        assert Trees(es)[i] == Trees(es[1..])[i - 1];
        assert es[1..][i - 1] == es[i];
      }
    }
  }

  /** `S_Expression` on a stream that starts with a well-formed expression
      reads that expression and leaves the rest of the stream unread. */
  lemma ReadOf(e: SExpr, rest: seq<string>)
    requires WellFormed(e)
    ensures Read(Tokens(e) + rest, 0) == Parsed(Tree(e), |Tokens(e)| - 1)
  {
    var toks := Tokens(e) + rest;
    assert toks[0..|Tokens(e)|] == Tokens(e);
    ParseExprOf(toks, 0, e);
  }

  /** The shorthand `'x` reads as the explicit form `(quote x)`. */
  lemma QuoteDesugars(q: SExpr, rest: seq<string>)
    requires WellFormed(Quote(q))
    ensures WellFormed(ListOf([Atom("quote"), q]))
    ensures Read(Tokens(Quote(q)) + rest, 0).Parsed?
    ensures Read(Tokens(ListOf([Atom("quote"), q])) + rest, 0).Parsed?
    ensures Read(Tokens(Quote(q)) + rest, 0).tree == Read(Tokens(ListOf([Atom("quote"), q])) + rest, 0).tree
  {
    var l := ListOf([Atom("quote"), q]);
    assert WellFormed(l) by {
      forall i | 0 <= i < 2 ensures WellFormed(l.elems[i]) {
      }
    }
    ReadOf(Quote(q), rest);
    ReadOf(l, rest);
    var xs := [Some(Leaf("quote")), Some(Tree(q))];
    assert [Atom("quote"), q][1..] == [q];
    assert Trees([Atom("quote"), q]) == xs;
    assert xs[1..] == [Some(Tree(q))];
    assert Tree(l) == Chain(xs) == QuoteOf(Tree(q));
  }
}
