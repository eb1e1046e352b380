# Binary-operator expression trees: parse, print, simplify

A Dafny model of `binexp_parser.py`, the `BinOpAst` class. The class builds
a binary-operator tree from a token list in prefix notation. It renders the
tree in prefix, infix or postfix notation, and simplifies it with the two
identity rules, `x + 0 = x` and `x * 1 = x`.

The model has two layers.

- **Pure layer** (modules `Ast`, `Text`, `Printers`, `Parser`, `Simplifier`).
  - Trees are the datatype `Tree = Num(val) | Op(val, left, right)`.
  - The parser is `Parser.Parse`, a function from a token list to the tree
    plus the tokens left over, or `Err(MalformedExpression)`.
  - The printers are `Printers.Prefix`, `Infix` and `Postfix`.
  - The two passes are functions returning the rewritten tree and whether a
    node collapsed.
  - The properties are stated about these functions: the parser's token
    consumption both ways, print/parse round trips, what the printers emit,
    and the reach of one pass.
  - `Pipeline.Run` is what the test does with one token list: parse,
    simplify, print in prefix notation. Module `Fixtures` traces inputs
    through it.
- **Object layer** (module `BinExpParser`).
  - `BinOpAst` is a class. Its fields are `val`, `kind` (the source's
    `type`), `left` and `right`.
  - `TokenList` is the caller's list, which the parser destroys from the
    front with `pop(0)`.
  - The constructor, the printers and the passes are methods that update
    the objects in place.
  - Each method is proved against the pure layer through the ghost function
    `Model()`.

The model reproduces some behaviour of the code exactly, as written:

- The identity rule reads the node's own `type`, its children's texts and
  its right child's `type`, but never the node's own operator symbol.
  `* 5 0` therefore simplifies to `5`, as `+ 5 0` does.
- The walk follows only the right spine. It stops at the first node whose
  right child is the identity or a number. At most one node collapses per
  pass, and an identity in a left subtree is never reached.
- The docstring states the rule as `x + 0 = x` (line 112), with `x` any
  left operand. The code does not replace the node by its left subtree. It
  copies only the left child's text into the node's `val` and marks the node
  as a number. The model follows the code. So `+ (* 2 3) 0` collapses to the
  leaf `*` (`Simplifier.CollapseCopiesOperatorText`).
- The identity test `right.val == '0'` is made whatever the right child's
  type is, and the model makes it the same way.
- A collapsed object keeps its old `left` and `right` fields. It still acts
  as a leaf everywhere. The printers branch on `type` (lines 81, 92, 103),
  which is now number. A later pass on the node itself finds its stale
  `right` truthy (lines 114, 135) and then its `type` not operator, so it
  changes nothing. A pass on its parent reads only its `val` (lines 116, 121,
  137, 142) and `type` (lines 120, 141), and `val` holds the copied text.
  So `Valid()` and `Model()` ignore the children of a number node.

## Model

| member | source | states |
|---|---|---|
| Ast.IsNumeric | binexp_parser.py:52 | `isnumeric` (on ASCII digits): a numeric text is a non-empty single `split()` token with no parenthesis |
| Ast.ParsedKind | binexp_parser.py:52-57 | in a parsed tree a node's `type` is number exactly when its text is numeric |
| Ast.PrefixTokensSize | binexp_parser.py:51-59 | a tree is built from exactly one token per node |
| Ast.TraversalsListVals | binexp_parser.py:75-107 | prefix, infix and postfix order each list every node text once: the same multiset of texts |
| Text.Split | binexp_parser.py:27 | `split()` returns only non-empty tokens free of whitespace |
| Text.SplitJoin | binexp_parser.py:27 | splitting a single-space join of whitespace-free, non-empty tokens gives back those tokens |
| Printers.Prefix | binexp_parser.py:75-85 | `prefix_str` starts with the node's own text; PrefixIsJoin and PrintersAgree give the whole rendering |
| Printers.Infix | binexp_parser.py:87-96 | `infix_str` of an operator node is wrapped in a pair of parentheses; InfixIsJoin, InfixParenCount and InfixAgrees give the rest |
| Printers.Postfix | binexp_parser.py:98-107 | `postfix_str` ends with the node's own text; PostfixIsJoin and PrintersAgree give the whole rendering |
| Printers.LeafPrintsBare | binexp_parser.py:81-105 | all three printers render a number node as its bare text (the number branches at lines 82-83, 93-94 and 104-105) |
| Printers.PrefixIsJoin | binexp_parser.py:81-85 | `prefix_str` is the node texts in prefix order, joined by single spaces |
| Printers.PostfixIsJoin | binexp_parser.py:103-107 | `postfix_str` is the node texts in postfix order, joined by single spaces |
| Printers.InfixIsJoin | binexp_parser.py:92-96 | with its parentheses removed, `infix_str` is the node texts in order, joined by single spaces (when no text holds a parenthesis) |
| Printers.InfixParenCount | binexp_parser.py:92-96 | `infix_str` holds exactly one `(` and one `)` per operator node (when no text holds a parenthesis) |
| Printers.PrintersAgree | binexp_parser.py:75-107 | for any tree whose texts are single words, splitting the prefix or postfix rendering gives that notation's token order; both hold each node text once; the prefix rendering splits into one token per node |
| Printers.InfixAgrees | binexp_parser.py:87-96 | when no text holds a parenthesis, splitting the infix rendering without its parentheses gives the in-order node texts, each once |
| Parser.Parse | binexp_parser.py:51-59 | each successful parse consumes at least one token |
| Parser.ParseKind | binexp_parser.py:51-57 | the root of a parsed tree carries the first token, and its `type` is number exactly when that token is numeric |
| Parser.ParseOperatorStep | binexp_parser.py:56-59 | a non-numeric token is an operator whose left, then right, operand is parsed from the rest of the same list; the parse fails if either operand fails |
| Parser.ParseComplete | binexp_parser.py:51-59 | the prefix tokens of any parser-shaped tree, followed by any suffix, parse back to that tree and leave the suffix |
| Parser.ParseSound | binexp_parser.py:51-59 | a successful parse returns a parser-shaped tree whose prefix tokens are exactly the tokens consumed |
| Parser.ParseSpec | binexp_parser.py:51-59 | the parse returns `(t, rest)` if and only if the list is `t`'s prefix tokens followed by `rest` and `t` is parser-shaped |
| Parser.ParseFailsSpec | binexp_parser.py:51-59 | the parse fails if and only if no complete expression starts the list |
| Parser.ParseFailureExamples | binexp_parser.py:51 | the empty list, `+` and `+ 1` run out of tokens |
| Parser.RoundTrip | binexp_parser.py:75-85 | parsing the split prefix rendering of a parser-shaped tree with one-word texts, followed by a suffix, rebuilds the tree and leaves the suffix |
| Parser.ParsePrintParse | binexp_parser.py:27-33 | a tree parsed from split tokens parses back from its own prefix rendering with nothing left over |
| Simplifier.IdentityPass | binexp_parser.py:114-128 | a pass that reports no change returns the tree unchanged; it reports a change exactly when the tree shrinks; it never changes a leaf |
| Simplifier.AdditiveIdentity | binexp_parser.py:109-128 | at the root, `x + 0 = x` (the node becomes a leaf with its left child's text), and `0 + x = x` when `x` is a leaf; PassScope and PassAtFirstStop give the whole pass |
| Simplifier.MultiplicativeIdentity | binexp_parser.py:130-149 | at the root, `x * 1 = x`, and `1 * x = x` when `x` is a leaf; PassScope and PassAtFirstStop give the whole pass |
| Simplifier.Simplify | binexp_parser.py:170-181 | `simplify_binops` never enlarges the tree |
| Simplifier.FirstStopExists | binexp_parser.py:114-128 | the walk down the right spine always ends at some node |
| Simplifier.PassAtFirstStop | binexp_parser.py:114-128 | a pass works exactly like this: walk the right spine to the first node whose right child is the identity or a number (or which is a leaf), then collapse that node by the identity rule, or change nothing |
| Simplifier.ReplaceSpineFrame | binexp_parser.py:126 | replacing the node at spine depth `k` keeps the `k` spine nodes above it, each with its text and left subtree |
| Simplifier.PassScope | binexp_parser.py:114-128 | a pass either leaves the tree unchanged or collapses exactly one operator node of the right spine into a leaf carrying one of that node's children's texts |
| Simplifier.PassShrinksByTwo | binexp_parser.py:116-124 | a collapse removes at least two nodes |
| Simplifier.SymbolsNotInspected | binexp_parser.py:114-149 | two trees that differ only in their operator symbols get the same decision and results of the same shape (when no operator symbol equals the identity text, true of every parsed tree) |
| Simplifier.SimplifyUnchangedSpec | binexp_parser.py:178-181 | `simplify_binops` leaves a tree as it is exactly when neither pass collapses a node |
| Simplifier.SimplifyShrinks | binexp_parser.py:178-181 | the result is smaller exactly when some pass collapsed a node, and it has lost at least two nodes per collapse |
| Simplifier.IdentityExamples | binexp_parser.py:109-149 | `+ 5 0`, `* 5 0`, `* 5 1`, `+ 5 1`, `+ 0 5` become `5`; `* 7 1` becomes `7`; `+ 2 3` stays |
| Simplifier.CollapseCopiesOperatorText | binexp_parser.py:116-119 | `+ (* 2 3) 0` collapses to the leaf `*`, because only the left child's text is copied |
| Simplifier.SinglePassLimits | binexp_parser.py:114-128 | one pass is no fixed point (`+ 0 + 2 0` becomes `+ 0 2`); an identity in a left subtree is never reached |
| Simplifier.CombinedExample | binexp_parser.py:186-192 | `+ 2 * 5 + 7 * 7 1` simplifies to `+ 2 * 5 + 7 7` |
| BinExpParser.TokenList.constructor | binexp_parser.py:31 | the token list starts out holding the given tokens |
| BinExpParser.TokenList.PopFront | binexp_parser.py:51 | `pop(0)` removes and returns the first token; it fails on an empty list |
| BinExpParser.BinOpAst.Leaf | binexp_parser.py:52-55 | a numeric token becomes a childless number node |
| BinExpParser.BinOpAst.Apply | binexp_parser.py:56-59 | an operator node owns its two disjoint operand subtrees |
| BinExpParser.BinOpAst.Parse | binexp_parser.py:45-59 | building from the list does what `Parser.Parse` does: a fresh valid tree equal to the parsed tree, its tokens consumed from the list; on failure no tree and an emptied list |
| BinExpParser.BinOpAst.ParseOperands | binexp_parser.py:56-59 | the operator branch of the constructor agrees with `Parser.Parse` on the operator token followed by the list |
| BinExpParser.BinOpAst.PrefixStr | binexp_parser.py:75-85 | `prefix_str` returns `Printers.Prefix` of the tree the object stands for |
| BinExpParser.BinOpAst.InfixStr | binexp_parser.py:87-96 | `infix_str` returns `Printers.Infix` of the tree |
| BinExpParser.BinOpAst.PostfixStr | binexp_parser.py:98-107 | `postfix_str` returns `Printers.Postfix` of the tree |
| BinExpParser.BinOpAst.IdentityCollapse | binexp_parser.py:114-128 | the in-place walk keeps the object graph valid and turns the tree into what `Simplifier.IdentityPass` gives, with the same change flag |
| BinExpParser.BinOpAst.AdditiveIdentity | binexp_parser.py:109-128 | `additive_identity` is the identity pass with `"0"` |
| BinExpParser.BinOpAst.MultiplicativeIdentity | binexp_parser.py:130-149 | `multiplicative_identity` is the identity pass with `"1"` |
| BinExpParser.BinOpAst.MultByZero | binexp_parser.py:151-157 | the `mult_by_zero` stub leaves the tree unchanged |
| BinExpParser.BinOpAst.ConstantFold | binexp_parser.py:159-168 | the `constant_fold` stub leaves the tree unchanged |
| BinExpParser.BinOpAst.SimplifyBinops | binexp_parser.py:170-181 | `simplify_binops` turns the tree into `Simplifier.Simplify` of it and keeps it valid |
| BinExpParser.SimplifiedPrefix | binexp_parser.py:31-33 | building, simplifying and printing a token list with the objects gives what `Pipeline.Run` gives |
| Pipeline.Run | binexp_parser.py:31-33 | the pipeline fails exactly when the parse fails |
| Pipeline.RunOfTree | binexp_parser.py:31-33 | the pipeline on a parser-shaped tree's prefix tokens gives the prefix rendering of its simplified tree |
| Fixtures.AdditiveFixtures | binexp_parser.py:15-34 | tokens `+ 5 0` and `* 5 0` give `5` |
| Fixtures.MultiplicativeFixtures | binexp_parser.py:15-34 | tokens `* 5 1` give `5`; tokens `+ 2 * 3 1` give `+ 2 3` |
| Fixtures.NoIdentityFixture | binexp_parser.py:109-128 | tokens `+ 2 3` give `+ 2 3` |
| Fixtures.CombinedFixture | binexp_parser.py:186-192 | tokens `+ 2 * 5 + 7 * 7 1` give `+ 2 * 5 + 7 7` |

## Left out

- The `unittest` harness (lines 14-34) lists directories and reads the fixture files. That is file I/O. What the harness does with one token list is modelled as `BinExpParser.SimplifiedPrefix` and `Pipeline.Run`. The fixture files are not part of this model; the inputs in module `Fixtures` are illustrative, except the combined one, which is the input of the commented-out `__main__` block.
- The `__main__` block (lines 184-192) runs the tests and holds commented-out printing. It is not modelled.
- `__str__` and `__repr__` (lines 61-73) are debug printing. They are not modelled.
- `str.isnumeric` accepts any Unicode numeric character. The model accepts non-empty strings of ASCII digits only.
- The passes return `self`, `None` or the recursive call's value. The model replaces that with a boolean telling whether a node collapsed. The source ignores the value.
- `pop(0)` on an empty list raises `IndexError`, which travels out of the constructor. The model returns `null` (in the class) or `Err(MalformedExpression)` (in `Parser.Parse`), with the list emptied.
- A leaf's children are `False` in the source. The model uses `null`.
- `mult_by_zero` and `constant_fold` are unimplemented stubs in the source. They are modelled as operations that change nothing.
- Python's recursion limit, which very deep inputs hit, is not modelled.
