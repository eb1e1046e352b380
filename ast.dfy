/** The binary-operator expression tree of BinOpAst, as a value.

    A node is either a number literal or an operator application with exactly
    two children. Both kinds keep their text in `val`: the digits of the
    literal, or the operator symbol.
 */
module Ast {
  import opened Text

  /** The two node kinds the source distinguishes with its `NodeType` enum. */
  datatype NodeType = Number | Operator

  datatype Tree = Num(val: string) | Op(val: string, left: Tree, right: Tree)

  /** The `type` field a node of this tree carries. */
  function Kind(t: Tree): NodeType {
    if t.Num? then Number else Operator
  }

  /** `str.isnumeric`, restricted to ASCII: a non-empty string of digits.
      Such a text is a single `split()` token and holds no parenthesis. */
  predicate IsNumeric(s: string): (b: bool)
    ensures b ==> IsWord(s) && NoParens(s)
  {
    |s| > 0 && forall i :: 0 <= i < |s| ==> '0' <= s[i] <= '9'
  }

  /** Number of nodes of the tree. */
  function Size(t: Tree): (n: nat)
    ensures n >= 1
  {
    match t
    case Num(_) => 1
    case Op(_, l, r) => 1 + Size(l) + Size(r)
  }

  /** Number of operator nodes of the tree. */
  function OpCount(t: Tree): (n: nat)
    ensures n < Size(t)
  {
    match t
    case Num(_) => 0
    case Op(_, l, r) => 1 + OpCount(l) + OpCount(r)
  }

  /** The `val` of every node, one occurrence per node. */
  function Vals(t: Tree): (m: multiset<string>)
    ensures t.val in m
  {
    match t
    case Num(v) => multiset{v}
    case Op(v, l, r) => multiset{v} + Vals(l) + Vals(r)
  }

  /** The node texts in prefix order: a node before its left, then its right subtree. */
  function PrefixTokens(t: Tree): (ts: seq<string>)
    ensures |ts| >= 1 && ts[0] == t.val
  {
    match t
    case Num(v) => [v]
    case Op(v, l, r) => [v] + PrefixTokens(l) + PrefixTokens(r)
  }

  /** The node texts in infix order: left subtree, node, right subtree. */
  function InfixTokens(t: Tree): (ts: seq<string>)
    ensures |ts| >= 1
  {
    match t
    case Num(v) => [v]
    case Op(v, l, r) => InfixTokens(l) + [v] + InfixTokens(r)
  }

  /** The node texts in postfix order: left subtree, right subtree, node. */
  function PostfixTokens(t: Tree): (ts: seq<string>)
    ensures |ts| >= 1 && ts[|ts| - 1] == t.val
  {
    match t
    case Num(v) => [v]
    case Op(v, l, r) => PostfixTokens(l) + PostfixTokens(r) + [v]
  }

  /** The shape every parsed tree has: numeric texts exactly at the leaves. */
  predicate Parsed(t: Tree) {
    match t
    case Num(v) => IsNumeric(v)
    case Op(v, l, r) => !IsNumeric(v) && Parsed(l) && Parsed(r)
  }

  /** In a parsed tree a node has type `number` exactly when its text is numeric. */
  lemma {:induction false} ParsedKind(t: Tree)
    requires Parsed(t)
    ensures Kind(t) == Number <==> IsNumeric(t.val)
  {
    match t
    case Num(_) =>
    case Op(_, _, _) =>
  }

  lemma {:induction false} PrefixTokensSize(t: Tree)
    ensures |PrefixTokens(t)| == Size(t)
  {
    match t
    case Num(_) =>
    case Op(_, l, r) => PrefixTokensSize(l); PrefixTokensSize(r);
  }

  /** All three traversals list exactly the node texts, each once. */
  lemma {:induction false} TraversalsListVals(t: Tree)
    ensures multiset(PrefixTokens(t)) == Vals(t)
    ensures multiset(InfixTokens(t)) == Vals(t)
    ensures multiset(PostfixTokens(t)) == Vals(t)
  {
    match t
    case Num(_) =>
    case Op(v, l, r) =>
      TraversalsListVals(l);
      TraversalsListVals(r);
      assert PrefixTokens(t) == [v] + PrefixTokens(l) + PrefixTokens(r);
      assert InfixTokens(t) == InfixTokens(l) + [v] + InfixTokens(r);
      assert PostfixTokens(t) == PostfixTokens(l) + PostfixTokens(r) + [v];
  }
}
