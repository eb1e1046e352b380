/** The three renderings of a tree: `prefix_str`, `infix_str` and `postfix_str`. */
module Printers {
  import opened Ast
  import opened Text

  /** `prefix_str`: the node text, then the left and the right rendering, space-separated. */
  function Prefix(t: Tree): (s: string)
    ensures StartsWith(s, t.val)
  {
    match t
    case Num(v) => v
    case Op(v, l, r) => v + " " + Prefix(l) + " " + Prefix(r)
  }

  /** `infix_str`: every operator node wrapped in parentheses, its text between the operands. */
  function Infix(t: Tree): (s: string)
    ensures t.Op? ==> 2 <= |s| && s[0] == '(' && s[|s| - 1] == ')'
  {
    match t
    case Num(v) => v
    case Op(v, l, r) => "(" + Infix(l) + " " + v + " " + Infix(r) + ")"
  }

  /** `postfix_str`: the left and the right rendering, then the node text, space-separated. */
  function Postfix(t: Tree): (s: string)
    ensures EndsWith(s, t.val)
  {
    match t
    case Num(v) => v
    case Op(v, l, r) => Postfix(l) + " " + Postfix(r) + " " + v
  }

  /** Every node text is a single `split()` token. */
  ghost predicate WordTexts(t: Tree) {
    forall v :: v in Vals(t) ==> IsWord(v)
  }

  /** No node text contains a parenthesis. */
  ghost predicate ParenFreeTexts(t: Tree) {
    forall v :: v in Vals(t) ==> NoParens(v)
  }

  lemma LeafPrintsBare(v: string)
    ensures Prefix(Num(v)) == v && Infix(Num(v)) == v && Postfix(Num(v)) == v
  {
  }

  /** The prefix rendering is the prefix-order node texts joined by single spaces. */
  lemma {:induction false} PrefixIsJoin(t: Tree)
    ensures Prefix(t) == Join(PrefixTokens(t))
  {
    match t
    case Num(_) =>
    case Op(v, l, r) =>
      PrefixIsJoin(l);
      PrefixIsJoin(r);
      JoinAppend(PrefixTokens(l), PrefixTokens(r));
      JoinAppend([v], PrefixTokens(l) + PrefixTokens(r));
      assert [v] + (PrefixTokens(l) + PrefixTokens(r)) == PrefixTokens(t);
  }

  /** The postfix rendering is the postfix-order node texts joined by single spaces. */
  lemma {:induction false} PostfixIsJoin(t: Tree)
    ensures Postfix(t) == Join(PostfixTokens(t))
  {
    match t
    case Num(_) =>
    case Op(v, l, r) =>
      PostfixIsJoin(l);
      PostfixIsJoin(r);
      JoinAppend(PostfixTokens(l), PostfixTokens(r));
      JoinAppend(PostfixTokens(l) + PostfixTokens(r), [v]);
  }

  lemma ChildTexts(t: Tree)
    requires t.Op?
    ensures ParenFreeTexts(t) ==> ParenFreeTexts(t.left) && ParenFreeTexts(t.right) && NoParens(t.val)
    ensures WordTexts(t) ==> WordTexts(t.left) && WordTexts(t.right) && IsWord(t.val)
  {
    assert Vals(t) == multiset{t.val} + Vals(t.left) + Vals(t.right);
  }

  lemma UnparenWrap(a: string, v: string, b: string)
    requires NoParens(v)
    ensures Unparen("(" + a + " " + v + " " + b + ")") == Unparen(a) + " " + v + " " + Unparen(b)
  {
    UnparenNoParens(v);
    UnparenNoParens(" ");
    assert Unparen("(") == "" && Unparen(")") == "";
    UnparenAppend("(", a);
    UnparenAppend("(" + a, " ");
    UnparenAppend("(" + a + " ", v);
    UnparenAppend("(" + a + " " + v, " ");
    UnparenAppend("(" + a + " " + v + " ", b);
    UnparenAppend("(" + a + " " + v + " " + b, ")");
  }

  /** With the parentheses taken out, the infix rendering is the in-order node
      texts joined by single spaces. */
  lemma {:induction false} InfixIsJoin(t: Tree)
    requires ParenFreeTexts(t)
    ensures Unparen(Infix(t)) == Join(InfixTokens(t))
  {
    match t
    case Num(v) =>
      assert v in Vals(t);
      UnparenNoParens(v);
    case Op(v, l, r) =>
      ChildTexts(t);
      InfixIsJoin(l);
      InfixIsJoin(r);
      UnparenWrap(Infix(l), v, Infix(r));
      JoinAppend(InfixTokens(l), [v]);
      JoinAppend(InfixTokens(l) + [v], InfixTokens(r));
  }

  lemma ParenCountWrap(a: string, v: string, b: string)
    requires NoParens(v)
    ensures multiset("(" + a + " " + v + " " + b + ")")['('] == 1 + multiset(a)['('] + multiset(b)['(']
    ensures multiset("(" + a + " " + v + " " + b + ")")[')'] == 1 + multiset(a)[')'] + multiset(b)[')']
  {
    NoParensCount(v);
    assert multiset("(" + a + " " + v + " " + b + ")")
      == multiset("(") + multiset(a) + multiset(" ") + multiset(v) + multiset(" ") + multiset(b) + multiset(")");
  }

  /** Infix wraps each operator node in exactly one pair of parentheses,
      and adds no other parenthesis. */
  lemma {:induction false} InfixParenCount(t: Tree)
    requires ParenFreeTexts(t)
    ensures multiset(Infix(t))['('] == OpCount(t)
    ensures multiset(Infix(t))[')'] == OpCount(t)
  {
    match t
    case Num(v) =>
      assert v in Vals(t);
      NoParensCount(v);
    case Op(v, l, r) =>
      ChildTexts(t);
      InfixParenCount(l);
      InfixParenCount(r);
      ParenCountWrap(Infix(l), v, Infix(r));
  }

  lemma NoParensCount(v: string)
    requires NoParens(v)
    ensures multiset(v)['('] == 0 && multiset(v)[')'] == 0
  {
    assert '(' !in v && ')' !in v;
  }

  lemma AllWordsOfTexts(t: Tree, ts: seq<string>)
    requires WordTexts(t) && multiset(ts) == Vals(t)
    ensures AllWords(ts)
  {
    forall i | 0 <= i < |ts| ensures IsWord(ts[i]) {
      assert ts[i] in multiset(ts);
    }
  }

  /** The prefix and postfix printers emit one token per node: splitting
      either rendering gives the node texts in that notation's order, each
      text once. */
  lemma PrintersAgree(t: Tree)
    requires WordTexts(t)
    ensures Split(Prefix(t)) == PrefixTokens(t)
    ensures Split(Postfix(t)) == PostfixTokens(t)
    ensures multiset(Split(Prefix(t))) == Vals(t)
    ensures multiset(Split(Postfix(t))) == Vals(t)
    ensures |Split(Prefix(t))| == Size(t)
  {
    TraversalsListVals(t);
    PrefixTokensSize(t);
    AllWordsOfTexts(t, PrefixTokens(t));
    AllWordsOfTexts(t, PostfixTokens(t));
    PrefixIsJoin(t);
    PostfixIsJoin(t);
    SplitJoin(PrefixTokens(t));
    SplitJoin(PostfixTokens(t));
  }

  /** So does the infix printer once its parentheses are taken out, when no
      node text holds a parenthesis. */
  lemma InfixAgrees(t: Tree)
    requires WordTexts(t) && ParenFreeTexts(t)
    ensures Split(Unparen(Infix(t))) == InfixTokens(t)
    ensures multiset(Split(Unparen(Infix(t)))) == Vals(t)
  {
    TraversalsListVals(t);
    AllWordsOfTexts(t, InfixTokens(t));
    InfixIsJoin(t);
    SplitJoin(InfixTokens(t));
  }
}
