/** What the test does with one token list: build the tree, simplify it,
    and render it in prefix notation. */
module Pipeline {
  import opened Ast
  import opened Parser
  import opened Printers
  import opened Simplifier

  /** The whole pipeline on a token list; leftover tokens are ignored. */
  function Run(tokens: seq<string>): (out: Result<string>)
    ensures Parse(tokens).Err? <==> out.Err?
  {
    match Parse(tokens)
    case Ok((t, _)) => Ok(Prefix(Simplify(t)))
    case Err(e) => Err(e)
  }

  /** A parser-shaped tree's own prefix tokens run to its simplified prefix rendering. */
  lemma RunOfTree(t: Tree)
    requires Parsed(t)
    ensures Run(PrefixTokens(t)) == Ok(Prefix(Simplify(t)))
  {
    ParseComplete(t, []);
    assert PrefixTokens(t) + [] == PrefixTokens(t);
  }
}
