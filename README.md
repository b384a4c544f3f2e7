# A verified model of the simple Scheme interpreter's reader, evaluator and printer

The interpreter reads one Scheme expression at a time and builds a tree of
cons cells. Each cell has an optional symbol, a `mSub` pointer down and an
`mNext` pointer right. The evaluator then walks that tree against two
global association lists: `mAssocVars` for variables and `mAssocFns` for
user functions. The printer writes the result back as text on one line.

The model covers three layers.

- **Cells** (`cells.dfy`) are the `Cell` structure of `src/parser.h` as a
  datatype. `TRUE` and `FALSE` are two sentinel constructors. `List*`
  becomes `ListRef`, which is either the NULL wrapper returned by `define`
  or a wrapper whose structure may be NULL.
- **Evaluation** is modelled twice:
  - as pure functions of the global stores (`evaluation.dfy`, with
    `primitives.dfy`, `environments.dfy` and `numerals.dfy`);
  - as the imperative `Session.Interpreter` class (`session.dfy`). Its
    fields are the two stores, its methods reassign them, and its loops
    are the operand walks of `add`, `makeList`, `cond`, `bindLocals` and
    the rest. Every method is proved to end in the state and result that
    the functions describe.
- **Reading and printing**:
  - `parser.dfy` holds the reader as functions of the token sequence and
    as the `Parser.Reader` class, whose methods consume tokens one at a
    time the way `recurse_express` does.
  - `printer.dfy` holds `printList` and `recurse_print`.

Three facts about the C shape the model.

- **Undefined behaviour is a result.** A NULL dereference, or `strcmp` on
  a NULL symbol, cannot be excluded by a precondition: it depends on
  values computed during evaluation. Such cases give the result
  `Undefined`. The exception is `null?`, which follows the corrected
  reading listed under the findings.
- **Publication is tracked by a generation.**
  - `define` republishes `mAssocVars` only when the environment it was
    handed is still the global one (`environment == mAssocVars`). The
    model stamps each environment with the generation of the store it
    was taken from.
  - Every evaluator function is proved to publish at most once, and only
    when called on the current global environment.
  - As in the C, a second `define` inside one top-level expression is
    therefore not published.
- **Fuel bounds recursion.** Only `Eval` consumes fuel.

## Model

| member | source | states |
|---|---|---|
| Cells.IniAssocList | src/evaluation.c:1031-1037 | a fresh association list is a single cell labelled `#f` with nothing below or to the right |
| Cells.IniCell | src/parser.c:165-173 | `iniCell` is a cell with no label, no element and no successor; `EvaluationLaws.ListFormMeaning` shows that it is what `(list)` returns |
| Cells.Items | src/parser.h:29-52 | the elements of a chain (the `mSub` of each cell along `mNext`); there is at least one, and the first is the head cell's `mSub` |
| Cells.ItemsOfChain | src/parser.h:29-52 | building a chain from a nonempty sequence of elements and reading its elements back gives the same sequence |
| Cells.SubSmaller | src/parser.h:29-52 | the cell below and the cell to the right are strictly smaller than the cell itself |
| Cells.IsEmptyStructure | src/evaluation.c:434-448 | `isEmptyStructure` holds exactly when every label in the structure is reserved (proved by `Cells.IsEmptyStructureIff`) |
| Cells.IsEmptyStructureIff | src/evaluation.c:434-448 | `isEmptyStructure` holds exactly when every label in the structure is one of `quote`, `()`, `#f` and `#t` |
| Cells.CompareEqual | src/evaluation.c:522-555 | `compareEqual` succeeds exactly when the two structures have the same shape (proved by `Cells.CompareEqualIsShapeEquality`) |
| Cells.CompareEqualIsShapeEquality | src/evaluation.c:522-555 | `compareEqual` succeeds exactly when the two structures have the same shape and labels, each sentinel counting as the empty cell it is in memory |
| Cells.CompareEqualIsEquivalence | src/evaluation.c:522-555 | `compareEqual` is reflexive, symmetric and transitive |
| Numerals.DigitChar | src/evaluation.c:798-815 | a digit below ten is printed as the character whose digit value it is |
| Numerals.SkipSpaces | src/evaluation.c:798-815 | `atoi` skips leading white space: the rest is a suffix of the input |
| Numerals.DigitRun | src/evaluation.c:798-815 | the run of digits `atoi` reads is the longest prefix of digits |
| Numerals.Atoi | src/evaluation.c:798-815 | `atoi` of a label that is blank or empty is 0, and a negative number is read only after a leading `-` followed by more |
| Numerals.NatToString | src/evaluation.c:798-815 | `sprintf("%i")` of a natural number is a nonempty string of digits |
| Numerals.IntToString | src/evaluation.c:798-815 | `sprintf("%i")` of an integer is nonempty |
| Numerals.DigitsValueOfNatToString | src/evaluation.c:798-815 | the digits printed for a natural number are worth that number |
| Numerals.DigitRunOfDigits | src/evaluation.c:798-815 | on a string of digits the digit run is the whole string |
| Numerals.AtoiOfIntToString | src/evaluation.c:798-866 | `atoi` of the printed total gives back the total, so arithmetic results chain through `+`, `-` and `*` |
| Numerals.IntToStringIsNumeral | src/evaluation.c:978-1000 | every printed total passes the `number?` test |
| Primitives.Car | src/evaluation.c:352-356 | `car` is the first element of the chain (proved by `Primitives.CdrDropsFirstItem`) |
| Primitives.Cdr | src/evaluation.c:362-369 | `cdr` drops the first element, and of a one-element chain is a fresh empty cell (proved by `Primitives.CdrDropsFirstItem`) |
| Primitives.CdrDropsFirstItem | src/evaluation.c:352-369 | `car` is the first element of a chain; `cdr` of a chain of two or more elements is the chain without its first element, and of a one-element chain a fresh empty cell |
| Primitives.Cadr | src/evaluation.c:687-694 | `cadr` is the second element of a chain that has one (proved by `Primitives.CompositionsReadItems`) |
| Primitives.Caddr | src/evaluation.c:696-703 | `caddr` is the third element of a chain that has one (proved by `Primitives.CompositionsReadItems`) |
| Primitives.Cadddr | src/evaluation.c:705-712 | `cadddr` is the fourth element of a chain that has one (proved by `Primitives.CompositionsReadItems`) |
| Primitives.Caddddr | src/evaluation.c:714-721 | `caddddr` is the fifth element of a chain that has one (proved by `Primitives.CompositionsReadItems`) |
| Primitives.Cdar | src/evaluation.c:724-731 | `cdar` is the first element without its own first element (proved by `Primitives.CompositionsReadItems`) |
| Primitives.CompositionsReadItems | src/evaluation.c:687-731 | `cadr`, `caddr`, `cadddr` and `caddddr` read elements 1 to 4 of a chain long enough to have them, and `cdar` drops the first element of the first element |
| Primitives.Cons | src/evaluation.c:389-405 | `cons` puts its first argument in front of the elements of the second, except before a first element labelled `#f` (proved by `Primitives.CarCdrOfCons`) |
| Primitives.CarCdrOfCons | src/evaluation.c:389-405 | `car` and `cdr` invert `cons`, and its elements are the first argument followed by those of the second, unless the first element of the second argument is labelled `#f`; then the result is a single cell whose element is the one-cell list holding the first argument |
| Primitives.IsSymbol | src/evaluation.c:378-382 | `symbol?` is TRUE exactly when the structure carries a label and FALSE exactly when it does not |
| Primitives.IsList | src/evaluation.c:968-975 | `list?` is TRUE exactly when the structure is present and has an element, FALSE otherwise |
| Primitives.IsNullAsWritten | src/evaluation.c:411-428 | the code's `isNull` is undefined exactly on a NULL structure, and otherwise answers TRUE or FALSE |
| Primitives.IsNull | src/evaluation.c:411-428 | the corrected `isNull` answers TRUE or FALSE, and TRUE on a NULL structure |
| Primitives.IsNullCorrection | src/evaluation.c:411-428 | the corrected `null?` agrees with the code on every present structure and answers TRUE on a NULL one, where the code dereferences NULL |
| Primitives.IsNullMeaning | src/evaluation.c:411-428 | `null?` of a present structure is TRUE exactly when the operand is neither TRUE nor `#t` and is FALSE, is `#f`, or holds no label but `quote`, `()`, `#f` and `#t` |
| Primitives.IsEqual | src/evaluation.c:506-516 | `equal?` answers TRUE or FALSE |
| Primitives.IsEqualMeaning | src/evaluation.c:506-516 | `equal?` is TRUE exactly when both operands have the same shape, and FALSE exactly when they do not |
| Primitives.AppendSubstitute | src/evaluation.c:573-588 | the elements of the result are those of the first list followed by those of the second (proved by `Primitives.AppendItems`) |
| Primitives.AppendItems | src/evaluation.c:561-588 | the elements of `append` are the elements of the first list followed by those of the second, and its length is the sum |
| Primitives.AppendChains | src/evaluation.c:573-588 | appending two chains built from element sequences is the chain of the concatenation |
| Primitives.Last | src/evaluation.c:760-768 | `last` of a NULL structure is undefined; otherwise it is the last element of the chain |
| Primitives.LastItem | src/evaluation.c:760-768 | the element of the final cell along `mNext`, which the `last` loop is proved to return; `Primitives.LastOfChain` shows that it is the last element of a chain |
| Primitives.LastOfChain | src/evaluation.c:760-768 | the last element of a chain built from a sequence is the sequence's last element |
| Primitives.Length | src/evaluation.c:774-792 | `length` of a NULL structure is undefined; otherwise it is the numeral of the chain's element count, or `0` for an empty structure |
| Primitives.LengthOf | src/evaluation.c:774-792 | the numeral of the element count, or `0` for an empty structure, which the `length` loop is proved to return; `Primitives.LengthOfChain` gives the count of a chain |
| Primitives.LengthOfChain | src/evaluation.c:774-792 | the length of a chain built from a sequence is the numeral of the sequence's length, unless the structure is empty |
| Primitives.IsNumber | src/evaluation.c:978-1000 | `number?` is undefined on a NULL operand or one without a label; otherwise it is TRUE exactly when every character of the label is a digit, except that a `-` may stand first |
| Primitives.NumberTest | src/evaluation.c:978-1000 | undefined without a label, otherwise TRUE exactly on a numeral; the `number?` scan is proved to return it, and `Numerals.IntToStringIsNumeral` shows that every printed total passes it |
| Primitives.Compare | src/evaluation.c:917-966 | each comparison answers TRUE or FALSE, and TRUE exactly when its relation (`<`, `>`, `<=`, `>=`) holds of the two numbers |
| Primitives.LogicNot | src/evaluation.c:907-910 | `not` is FALSE exactly on the TRUE sentinel and TRUE on everything else |
| Environments.Deepest | src/evaluation.c:482-499 | the label of an entry is found by descending `mSub` to a cell with nothing below |
| Environments.FindAssoc | src/evaluation.c:482-499 | `findAssoc` either finds nothing or returns an entry whose label is the symbol's |
| Environments.Assoc | src/evaluation.c:456-476 | `assoc` on a NULL list returns the key itself; on a list it returns a structure whenever it does not fail |
| Environments.LookupKey | src/evaluation.c:463-464 | the cell `assoc` searches for: `symbolParent`'s element, or `symbolParent` itself when it has none; `Environments.LookupAfterDefine` uses it to find a fresh binding |
| Environments.AssocForVar | src/evaluation.c:312-320 | variable lookup always returns a wrapper when it does not fail |
| Environments.AssocForFn | src/evaluation.c:329-337 | function lookup never runs out of fuel |
| Environments.Define | src/evaluation.c:640-656 | `define` puts the new binding in front of the old entries (proved by `Environments.DefinePrepends`) |
| Environments.Binding | src/evaluation.c:644-650 | the pair `(name (value . #f))` that `define` builds; `Environments.DefinePrepends` shows that it becomes the environment's first element |
| Environments.DefinePrepends | src/evaluation.c:640-656 | `define` adds the new binding in front of the old entries and keeps the list an environment; the binding's `cadr` is the stored value |
| Environments.EmptyEnvironment | src/evaluation.c:1031-1037 | a fresh association list is an environment with no entries |
| Environments.FindAssocFirstMatch | src/evaluation.c:482-499 | `findAssoc` returns the first entry that carries the symbol's label |
| Environments.FindAssocMiss | src/evaluation.c:482-499 | `findAssoc` finds nothing when no entry carries the label |
| Environments.UnboundNameIsItself | src/evaluation.c:312-320 | in the empty environment a name evaluates to itself |
| Environments.LookupAfterDefine | src/evaluation.c:640-656 | after defining a name, looking it up gives the defined value |
| Environments.ReadBack | src/evaluation.c:394-398 | what a lookup of a fresh binding returns: the value itself, except that a bound `#f` atom is lost to the special case of `cons` and reads back as a NULL structure; `Environments.LookupAfterDefine` and `TopLevel.DefineThenLookup` state it |
| Environments.LookupPastDefine | src/evaluation.c:640-656 | defining one name does not change the lookup of another |
| Environments.FunctionAfterDefine | src/evaluation.c:665-681 | after `defineFunction`, a call headed by that name finds the new definition |
| Environments.NoFunctionInEmpty | src/evaluation.c:329-337 | with no functions defined, no call finds one |
| Evaluation.AtomLabel | src/evaluation.c:798-815 | an operand has a label to read exactly when its wrapper holds a labelled structure, and the label read is that label |
| Evaluation.ApplyUnary | src/evaluation.c:170-241 | a one-operand primitive applied to the NULL wrapper of a `define` is undefined, and none runs out of fuel |
| Evaluation.UnaryOnCell | src/evaluation.c:172-241 | a one-operand primitive applied to a present structure never runs out of fuel; its branches are given meaning by `Primitives.IsNullMeaning`, `Primitives.CompositionsReadItems`, `Primitives.CdrDropsFirstItem` and the loop proofs of `last`, `length` and `number?` |
| Evaluation.ApplyBinary | src/evaluation.c:166-219 | a two-operand primitive never runs out of fuel; `Primitives.CarCdrOfCons`, `EvaluationLaws.CompareFormMeaning`, `Primitives.AppendItems` and `Primitives.IsEqualMeaning` give its `cons`, comparison, `append` and `equal?` results |
| Evaluation.Operand | src/evaluation.c:144-282 | `cell->mNext…->mSub` with i links is the i-th element of the chain, and it exists exactly when the chain is long enough |
| Evaluation.EvalOperand | src/evaluation.c:168 | evaluating the i-th operand publishes at most once, and is undefined past the end of the chain; `TopLevel.OperandOfTree` gives the operand of a read form |
| Evaluation.Eval | src/evaluation.c:144-282 | `recurse_eval` changes the variable store at most once, and only when called on the current global environment |
| Evaluation.Dispatch | src/evaluation.c:144-282 | one cell of `recurse_eval` publishes the variable store at most once, and only from the current global environment |
| Evaluation.KeywordForm | src/evaluation.c:161-241 | the `strcmp` chain from a head label to its branch; `Evaluation.KeywordAliases` states the upper-case `AND`, `OR` and `NOT` spellings, and that `else` and `#t` are not keywords |
| Evaluation.KeywordAliases | src/evaluation.c:182-187 | `AND`/`and`, `OR`/`or` and `NOT`/`not` select the same branch, and `else` and `#t` select none |
| Evaluation.EvalForm | src/evaluation.c:155-242 | each keyword branch publishes at most once, and only from the current global environment |
| Evaluation.ListLoop | src/evaluation.c:733-754 | the `makeList` loop publishes at most once; `EvaluationLaws.ListLoopCollects` gives its value |
| Evaluation.ArithLoop | src/evaluation.c:798-866 | the accumulator loop publishes at most once; `EvaluationLaws.ArithLoopMeaning` gives its value |
| Evaluation.EvalSubtract | src/evaluation.c:821-842 | `subtract` publishes at most once; `EvaluationLaws.SubtractMeaning` gives its value |
| Evaluation.AndLoop | src/evaluation.c:872-883 | `logicAnd` publishes at most once; `EvaluationLaws.AndLoopMeaning` gives its value |
| Evaluation.OrLoop | src/evaluation.c:889-900 | `logicOr` publishes at most once; `EvaluationLaws.OrLoopMeaning` gives its value |
| Evaluation.CondLoop | src/evaluation.c:595-616 | `cond` publishes at most once; `EvaluationLaws.CondFirstMatch` and `EvaluationLaws.CondNoMatch` give its value |
| Evaluation.IsElseClause | src/evaluation.c:601-604 | a clause whose test is labelled `else` or `#t` is taken without evaluating the test; `EvaluationLaws.CondFirstMatch` counts it as selecting the clause |
| Evaluation.EvalIf | src/evaluation.c:623-631 | `alternateIf` publishes at most once; `EvaluationLaws.IfMeaning` gives its value |
| Evaluation.EvalAssoc | src/evaluation.c:232-233 | the `assoc` branch publishes at most once, never from the key operand, which it does not evaluate |
| Evaluation.CallOrLookup | src/evaluation.c:264-283 | a call or variable lookup publishes at most once; `EvaluationLaws.CallEvaluatesBody` gives the value of a call |
| Evaluation.EvalTop | src/evaluation.c:134-139 | `eval` either leaves the variable store as it was or publishes one new generation of it |
| Evaluation.EvalRight | src/evaluation.c:253-262 | the walk to the right ends with a wrapper retargeted at the cell it started from |
| Evaluation.EvalDefine | src/evaluation.c:219-230 | `define` republishes the variable store at most once, and only on the current global environment |
| Evaluation.BindLoop | src/evaluation.c:289-302 | binding parameters never changes the global stores beyond one publication |
| Evaluation.ArithLoopStep | src/evaluation.c:802-806 | one turn of the accumulator loop evaluates the operand, gives up on a failed evaluation or a missing label, and otherwise folds `atoi` of the label into the total |
| EvaluationLaws.OperandsYieldTail | src/evaluation.c:733-754 | when a chain's operands evaluate to given values, the first operand gives the first value and the tail gives the rest |
| EvaluationLaws.ListLoopCollects | src/evaluation.c:733-754 | the `makeList` loop appends the operands' values, in order, to what it has already collected |
| EvaluationLaws.ListFormMeaning | src/evaluation.c:733-754 | `(list e1 … en)` is the chain of the operands' values, and its elements are exactly those values; `(list)` is a fresh empty cell |
| EvaluationLaws.IfMeaning | src/evaluation.c:623-631 | `if` passes on a failed condition, is undefined on the NULL wrapper of a `define`, and otherwise yields the then-branch exactly when the condition is the TRUE sentinel and the else-branch on any other structure |
| EvaluationLaws.BinaryFormMeaning | src/evaluation.c:166-219 | a two-operand primitive evaluates its operands left to right, the second against the stores the first left, and applies the primitive to both values |
| EvaluationLaws.CompareFormMeaning | src/evaluation.c:917-966 | a comparison form compares `atoi` of the two operands' labels and is undefined when either operand has no label |
| EvaluationLaws.CompareNumerals | src/evaluation.c:917-966 | on operands that evaluate to printed numbers, a comparison form answers whether the relation holds of those numbers |
| EvaluationLaws.AndLoopMeaning | src/evaluation.c:872-883 | for operands that all evaluate without changing the stores, `and` is FALSE exactly when some operand is the FALSE sentinel, and TRUE otherwise |
| EvaluationLaws.OrLoopMeaning | src/evaluation.c:889-900 | for operands that all evaluate without changing the stores, `or` is TRUE exactly when some operand is the TRUE sentinel, and FALSE otherwise |
| EvaluationLaws.AndStopsAtFirstFalse | src/evaluation.c:876-880 | `and` answers FALSE, with the stores the deciding operand left, at the first operand that yields the FALSE sentinel; nothing is asked of the operands after it, because they are never evaluated |
| EvaluationLaws.OrStopsAtFirstTrue | src/evaluation.c:893-897 | `or` answers TRUE, with the stores the deciding operand left, at the first operand that yields the TRUE sentinel; the operands after it are never evaluated |
| EvaluationLaws.Numbers | src/evaluation.c:798-866 | the numbers read from the operands are one per operand |
| EvaluationLaws.TotalStep | src/evaluation.c:798-866 | one step of the accumulator loop adds (or multiplies) one number into the running total |
| EvaluationLaws.AllAtomsTail | src/evaluation.c:798-866 | the numbers of a sequence of atoms are `atoi` of the first label followed by the numbers of the rest |
| EvaluationLaws.ArithLoopMeaning | src/evaluation.c:798-866 | the accumulator loops of `+`, `-` and `*` print the sum, difference or product of the operands' numbers |
| EvaluationLaws.ArithDispatch | src/evaluation.c:144-282 | `-` goes to `subtract`, `+` and `*` to the accumulator loop |
| EvaluationLaws.SubtractMeaning | src/evaluation.c:821-842 | `(- a b …)` is a minus the sum of the rest |
| EvaluationLaws.SubtractStart | src/evaluation.c:821-842 | `subtract` takes `atoi` of the first operand's label as the starting value and runs the accumulator loop over the rest |
| EvaluationLaws.ArithFormMeaning | src/evaluation.c:798-866 | `+` is the sum, `*` the product and `-` the first minus the rest; the printed result reads back as the same number |
| EvaluationLaws.CondFirstMatch | src/evaluation.c:595-616 | `cond` evaluates the body of the first clause that is `else`, `#t` or has a test yielding TRUE, after the earlier tests yield something else |
| EvaluationLaws.CondNoMatch | src/evaluation.c:595-616 | `cond` with no selecting clause yields FALSE |
| EvaluationLaws.NewestFirst | src/evaluation.c:289-302 | the bindings a call makes are one per parameter |
| EvaluationLaws.NewestFirstStep | src/evaluation.c:289-302 | binding one more parameter puts its entry in front of the earlier ones |
| EvaluationLaws.BindStep | src/evaluation.c:289-302 | one step of `bindLocals` prepends the binding of the first formal to its evaluated actual |
| EvaluationLaws.BindLoopBinds | src/evaluation.c:289-302 | `bindLocals` binds every formal to its actual evaluated in the caller's environment, newest first, in front of the local entries, and leaves the global stores unchanged |
| EvaluationLaws.CallEvaluatesBody | src/evaluation.c:264-283 | a call of a stored function evaluates the function's body in a local environment holding exactly the parameter bindings |
| Parser.ParseExpr | src/parser.c:42-98 | a parsed expression starts at the current token and ends at a later one within the input |
| Parser.ParseList | src/parser.c:66-88 | a parsed list ends strictly after its opening bracket |
| Parser.ParseItems | src/parser.c:76-88 | the list loop ends strictly after where it started |
| Parser.Read | src/parser.c:105-114 | with no token left the reader reports the end of input; otherwise a parsed expression ends on a token within the input, at or after the first one read |
| Parser.Reader.constructor | src/parser.c:105-109 | a reader starts over the given tokens with none handed out |
| Parser.Reader.GetToken | src/parser.c:105-109 | `getToken` hands out the next token exactly when one is left |
| Parser.Reader.RecurseExpress | src/parser.c:42-98 | `recurse_express` builds exactly the tree the parse function gives from the current token, and stops with the expression's last token current |
| Parser.Reader.ReadList | src/parser.c:66-88 | the list part of `recurse_express` builds exactly the parse of the list opened at the current token |
| Parser.Reader.SExpression | src/parser.c:105-114 | `S_Expression` pulls the first token and builds exactly the tree the parse function gives |
| Parser.Trees | src/parser.c:66-88 | the trees of a list's elements are one per element |
| Parser.ParseExprOf | src/parser.c:42-98 | the tokens of a well-formed expression parse back to its tree, ending on its last token |
| Parser.ParseListOf | src/parser.c:66-88 | the tokens of a bracketed list parse back to the chain of its elements' trees |
| Parser.ParseItemsOf | src/parser.c:76-88 | the list loop appends the trees of the remaining elements up to the closing bracket |
| Parser.ItemsTail | src/parser.c:76-88 | after the first element the rest are still well formed, and their trees complete the chain |
| Parser.ParseItemsHead | src/parser.c:76-88 | one turn of the list loop consumes exactly the first element's tokens, leaving the rest and the `)` |
| Parser.ParseItemsStep | src/parser.c:76-88 | one turn of the list loop on a well-formed element appends its tree |
| Parser.ParseListAt | src/parser.c:66-88 | a `(` starts a list that reads back as the chain of its elements |
| Parser.ParseQuoteAt | src/parser.c:48-64 | a `'` reads the quoted atom or list and wraps it as `(quote …)` |
| Parser.ListElements | src/parser.c:66-88 | the elements of a parsed list are the trees of its elements, in order |
| Parser.TreesIndex | src/parser.c:66-88 | the i-th tree of a list is the tree of its i-th element |
| Parser.ReadOf | src/parser.c:105-114 | reading the tokens of a well-formed expression, whatever follows, gives its tree |
| Parser.QuoteDesugars | src/parser.c:48-64 | `'x` reads as the same tree as `(quote x)` |
| Printer.PrintList | src/parser.c:119-139 | the output starts with a space and ends with a newline; the NULL wrapper prints nothing between them, FALSE prints `()`, TRUE prints `#t` and a labelled cell prints its label |
| Printer.RecursePrint | src/parser.c:145-159 | at level 0 the brackets balance, below it a balanced output is followed by the chain's `)` (proved by `Printer.PrintBalanced`) |
| Printer.ElementPrint | src/parser.c:148-154 | an element prints balanced brackets (proved by `Printer.ElementBalanced`) |
| Printer.DepthConcat | src/parser.c:145-159 | the bracket depth of two outputs joined is the sum of their depths |
| Printer.NestedConcat | src/parser.c:145-159 | two balanced outputs joined are balanced |
| Printer.NestedWrap | src/parser.c:145-159 | a balanced output between an open and a close bracket is balanced |
| Printer.PrintBalanced | src/parser.c:145-159 | at level 0 `recurse_print` prints balanced brackets; at any other level it prints a balanced output followed by the one closing bracket of the chain |
| Printer.ElementBalanced | src/parser.c:148-154 | the element part of `recurse_print` prints balanced brackets |
| Printer.NestedWord | src/parser.c:148-149 | a printed symbol is balanced |
| Printer.NestedChain | src/parser.c:151-157 | an open bracket followed by a balanced output and its closing bracket is balanced |
| Printer.ListOutputBalanced | src/parser.c:131-136 | the list case of `printList` prints balanced brackets around the output of `recurse_print` |
| Printer.TextConcat | src/parser.c:145-159 | the text of two outputs joined is their texts joined |
| Printer.TokensOfConcat | src/parser.c:145-159 | the tokens of two outputs joined are their tokens joined |
| Printer.DesugarAll | src/parser.c:48-64 | desugaring a list of expressions keeps one per element |
| Printer.ChainTokens | src/parser.c:145-159 | the printed chain of a list's trees reads as the tokens of the desugared elements |
| Printer.ElementTokens | src/parser.c:148-154 | a printed element reads as the tokens of the desugared expression |
| Printer.QuoteTokens | src/parser.c:148-154 | a quoted expression prints as the explicit `(quote …)` list |
| Printer.PrintedTokensOfTree | src/parser.c:119-159 | the tokens printed for a tree are the tokens of the expression with every `'x` written `(quote x)` |
| Printer.DesugarKeepsTree | src/parser.c:48-64 | writing every `'x` as `(quote x)` keeps the expression well formed and does not change its tree |
| Printer.DesugarAllKeepsTrees | src/parser.c:48-64 | the same holds for every element of a list |
| Printer.PrintThenRead | src/parser.c:42-159 | `printList` writes a parsed expression as its label or as the text of the pieces `recurse_print` emits in brackets, and reading back the tokens of those pieces gives the same tree |
| Session.Interpreter.constructor | src/evaluation.c:112-127 | `setupGlobals` starts both stores as fresh association lists |
| Session.Interpreter.Eval | src/evaluation.c:134-139 | `eval` ends in the result and stores the functional evaluator gives for the expression |
| Session.Interpreter.RecurseEval | src/evaluation.c:144-282 | `recurse_eval` ends in the result and stores of `Evaluation.Eval` |
| Session.Interpreter.OperandValue | src/evaluation.c:144-282 | evaluating the i-th operand agrees with the functional evaluator |
| Session.Interpreter.RecurseRight | src/evaluation.c:253-262 | the walk to the right agrees with the functional evaluator |
| Session.Interpreter.Keyword | src/evaluation.c:155-242 | each keyword branch agrees with the functional evaluator of that form |
| Session.Interpreter.UnaryCall | src/evaluation.c:170-241 | each one-operand primitive agrees with the functional evaluator |
| Session.Interpreter.BinaryCall | src/evaluation.c:166-219 | each two-operand primitive agrees with the functional evaluator |
| Session.Interpreter.MakeList | src/evaluation.c:733-754 | the `makeList` loop agrees with the functional list loop |
| Session.Interpreter.Add | src/evaluation.c:798-815 | the `add` loop agrees with the functional accumulator loop from 0 |
| Session.Interpreter.Subtract | src/evaluation.c:821-842 | the `subtract` loop agrees with the functional subtraction |
| Session.Interpreter.Multiply | src/evaluation.c:848-866 | the `multiply` loop agrees with the functional accumulator loop from 1 |
| Session.Interpreter.LogicAnd | src/evaluation.c:872-883 | the `logicAnd` loop agrees with the functional `and` loop |
| Session.Interpreter.LogicOr | src/evaluation.c:889-900 | the `logicOr` loop agrees with the functional `or` loop |
| Session.Interpreter.Cond | src/evaluation.c:595-616 | the `cond` loop agrees with the functional `cond` loop |
| Session.Interpreter.AlternateIf | src/evaluation.c:623-631 | `alternateIf` agrees with the functional `if` |
| Session.Interpreter.DefineForm | src/evaluation.c:219-230 | the `define` branch agrees with the functional `define`, republishing the variable store as it does |
| Session.Interpreter.DefineFunction | src/evaluation.c:665-681 | `defineFunction` prepends the definition to the function store and leaves the variable store alone |
| Session.Interpreter.AssocForm | src/evaluation.c:231-232 | the `assoc` branch agrees with the functional `assoc` |
| Session.Interpreter.CallOrLookup | src/evaluation.c:264-283 | a call of a stored function, or a variable lookup, agrees with the functional evaluator |
| Session.Interpreter.BindLocals | src/evaluation.c:289-302 | the `bindLocals` loop agrees with the functional binding loop |
| TopLevel.SymbolEval | src/evaluation.c:245-252 | a bare symbol evaluates to its lookup in the environment |
| TopLevel.QuoteEval | src/evaluation.c:161-165 | `(quote x)` evaluates to x without evaluating it |
| TopLevel.OperandOfTree | src/evaluation.c:144-282 | the i-th operand of a parsed list is the tree of its i-th element |
| TopLevel.KeywordEval | src/evaluation.c:155-242 | a form whose head is a keyword is handed to that keyword's branch |
| TopLevel.DefineSymbolKey | src/evaluation.c:219-230 | `define` with a symbol key, run on the current global environment, binds the key in front and publishes the new store |
| TopLevel.TopDefine | src/evaluation.c:219-230 | at top level `(define x 'w)` binds the symbol that x evaluates to, and publishes the store |
| TopLevel.DefineAtTop | src/evaluation.c:219-230 | a top-level `define` whose key yields a symbol binds that symbol to the value in front of the global list and publishes it |
| TopLevel.DefineExprOperands | src/evaluation.c:219-230 | in `(define x 'w)` the key operand evaluates to what x is bound to and the value operand to w |
| TopLevel.DefineThenLookup | src/evaluation.c:219-230 | at top level `(define x 'v)` publishes a store with x bound in front, and afterwards x evaluates to v |
| TopLevel.RedefinitionKeepsValue | src/evaluation.c:219-230 | when x is bound to the symbol y, `(define x 'w)` evaluates x first and so binds y, leaving x as it was |
| TopLevel.IfTakesElse | src/evaluation.c:623-631 | an `if` whose condition yields anything but the TRUE sentinel yields its else-branch |
| TopLevel.IfLiteralTrueOperands | src/evaluation.c:623-631 | in `(if #t 'a 'b)` the condition `#t`, when unbound, yields the symbol `#t`, and the else-branch yields b |
| TopLevel.LiteralTrueTakesElse | src/evaluation.c:623-631 | `(if #t 'a 'b)` gives b, because the literal `#t` evaluates to a symbol and not to the TRUE sentinel |
| TopLevel.InitiallyUnbound | src/evaluation.c:112-127 | after `setupGlobals` every name evaluates to itself |
| TopLevel.PairShape | src/parser.c:66-88 | a two-element list parses to two cells along `mNext` |
| TopLevel.HeadEvaluatesToItself | src/evaluation.c:219-230 | the head `(f p)` of a function definition evaluates to itself, so `define` stores a function |
| TopLevel.DefineIdentityOperands | src/evaluation.c:219-230 | in `(define (f p) p)` on fresh stores the head is a list and evaluates to itself, the body `p` evaluates to itself, and the body operand is `p` |
| TopLevel.DefineFunctionAtTop | src/evaluation.c:219-230 | a top-level `define` whose key yields a list stores the unevaluated value operand under that key and leaves the variables alone |
| TopLevel.DefineIdentityStores | src/evaluation.c:219-230 | `(define (f p) p)` on fresh stores puts that one definition in the function store and leaves the variables alone |
| TopLevel.CallIdentity | src/evaluation.c:264-302 | with that definition stored, `(f 'v)` yields v and changes no store |
| TopLevel.IdentityFunction | src/evaluation.c:219-302 | defining the identity function and then calling it on `'v` yields v, with the variable store unchanged |

## Left out

- The lexer (`getToken`, `startTokens`) is not part of this model. The
  reader takes the whole token sequence as input, and running out of
  tokens is the result `EndOfInput` rather than a call into the lexer.
- The read–eval–print loop of `src/structuraltester.c` is not modelled.
  `TopLevel` states what evaluating one read expression does, and
  `Printer.PrintThenRead` states that printing a read expression and
  reading it back is the identity; neither is one turn of that loop.
- Memory is not modelled: `malloc`, the leaks, the 20-byte symbol and
  token buffers, and the `strcpy` that overflows them on a longer token.
  Symbols are unbounded strings.
- Arithmetic is unbounded. The 32-bit overflow of `int` in `add`,
  `subtract` and `multiply` is not modelled, and neither is the 20-byte
  buffer that `sprintf` writes the result into. `atoi` is modelled on any
  label (white space, sign, digit prefix, 0 when there are no digits).
- Evaluation.ApplyBinary: C leaves open the order in which the two operands
  of `cons`, `append`, `equal?` and the comparisons are evaluated; the
  model evaluates them left to right.
- Evaluation.Eval: recursion is bounded by a fuel parameter. A run that
  exhausts it gives `OutOfFuel`, which covers the C program's
  non-terminating or stack-exhausting inputs without telling them apart.
- Session.Interpreter.MakeList: the C keeps a tail pointer into the chain
  it is building, and `recurse_express` extends its chain in place. The
  model collects the elements in a sequence and builds the chain from it.
- Session.Interpreter.RecurseRight: setting `list->mStructure = cell` on
  the wrapper returned from the right is modelled on values, as a new
  wrapper. The model does not capture that the C mutates a wrapper that
  may be shared.
- Printer.PrintThenRead: the step from the string `printList` writes back
  to tokens is the lexer, which is not part of this model, so the lemma
  reads back the tokens of the printed pieces. A label that is empty or
  holds a blank, a bracket or a quote prints text that a lexer would not
  split back into the same tokens.
- Evaluation.ApplyUnary: `null?` uses the corrected `isNull`, so on a NULL
  structure (as in `(null? (car 'a))`) it answers TRUE where the code at
  `src/evaluation.c:416` dereferences NULL. This is the one place where
  undefined behaviour is not the result `Undefined`; the code as written
  is `Primitives.IsNullAsWritten`.
- Printer.PrintList: the model is the string `printf` writes, not the
  write to standard output.
- Parser.ParseExpr: `( )` is read as the code reads it. The `)` becomes
  the first element's label, and the list goes on to the next `)`. It is
  not excluded by a precondition.
- Parser.Reader.ReadList: this is the list branch of `recurse_express`,
  split into its own method; the `'(` case enters it from the quote
  branch.

## Findings

| source | as written | input that shows it | evidently intended | confidence | as-written member | corrected member |
|---|---|---|---|---|---|---|
| src/evaluation.c:411-428 | `isNull` reads `list->mStructure->mSymbol` at line 416 before the NULL case at line 426 is tested, so a NULL structure is dereferenced | `(null? (car 'a))`: `car` of an atom is a wrapper with a NULL structure | a NULL structure is null: the answer is TRUE; `Evaluation.ApplyUnary` uses this corrected reading, so it is not `Undefined` there | not executed | Primitives.IsNullAsWritten (with Primitives.IsNullCorrection) | Primitives.IsNull |
