/** Illustrative inputs for each of the test groups (additive identity,
    multiplicative identity, combined), traced through the model from tokens
    to the prefix string the test compares. Only the combined input is taken
    from the repository, from its commented-out `__main__` block.
 */
module Fixtures {
  import opened Ast
  import opened Parser
  import opened Pipeline
  import opened Printers
  import opened Simplifier

  lemma SymbolsAreNotNumeric()
    ensures !IsNumeric("+") && !IsNumeric("*")
  {
    assert "+"[0] == '+';
    assert "*"[0] == '*';
  }

  /** `+ 5 0` gives `5`; so does `* 5 0`, since the symbol is not looked at. */
  lemma AdditiveFixtures()
    ensures Run(["+", "5", "0"]) == Ok("5")
    ensures Run(["*", "5", "0"]) == Ok("5")
  {
    SymbolsAreNotNumeric();
    assert IsNumeric("0") && IsNumeric("5");
    RunOfTree(Op("+", Num("5"), Num("0")));
    RunOfTree(Op("*", Num("5"), Num("0")));
    assert Simplify(Op("+", Num("5"), Num("0"))) == Num("5");
    assert Simplify(Op("*", Num("5"), Num("0"))) == Num("5");
  }

  /** `* 5 1` gives `5`; in `+ 2 * 3 1` the walk reaches `* 3 1` down the
      right spine, and the result is `+ 2 3`. */
  lemma MultiplicativeFixtures()
    ensures Run(["*", "5", "1"]) == Ok("5")
    ensures Run(["+", "2", "*", "3", "1"]) == Ok("+ 2 3")
  {
    SymbolsAreNotNumeric();
    assert IsNumeric("1") && IsNumeric("2") && IsNumeric("3") && IsNumeric("5");
    RunOfTree(Op("*", Num("5"), Num("1")));
    assert Simplify(Op("*", Num("5"), Num("1"))) == Num("5");
    var t := Op("+", Num("2"), Op("*", Num("3"), Num("1")));
    assert PrefixTokens(t) == ["+", "2", "*", "3", "1"];
    RunOfTree(t);
    NestedMultiplicative();
  }

  lemma NestedMultiplicative()
    ensures Simplify(Op("+", Num("2"), Op("*", Num("3"), Num("1")))) == Op("+", Num("2"), Num("3"))
    ensures Prefix(Op("+", Num("2"), Num("3"))) == "+ 2 3"
  {
    var t := Op("+", Num("2"), Op("*", Num("3"), Num("1")));
    assert AdditiveIdentity(t) == (t, false);
  }

  /** `+ 2 3` holds no identity and stays `+ 2 3`. */
  lemma NoIdentityFixture()
    ensures Run(["+", "2", "3"]) == Ok("+ 2 3")
  {
    SymbolsAreNotNumeric();
    assert IsNumeric("2") && IsNumeric("3");
    var t := Op("+", Num("2"), Num("3"));
    assert PrefixTokens(t) == ["+", "2", "3"];
    RunOfTree(t);
    assert AdditiveIdentity(t) == (t, false);
    assert MultiplicativeIdentity(t) == (t, false);
    assert Simplify(t) == t;
    assert Prefix(t) == "+ 2 3";
  }

  function CombinedInput(): Tree {
    Op("+", Num("2"), Op("*", Num("5"), Op("+", Num("7"), Op("*", Num("7"), Num("1")))))
  }

  lemma CombinedInputParsed()
    ensures Parsed(CombinedInput())
    ensures PrefixTokens(CombinedInput()) == ["+", "2", "*", "5", "+", "7", "*", "7", "1"]
  {
    SymbolsAreNotNumeric();
    assert IsNumeric("1") && IsNumeric("2") && IsNumeric("5") && IsNumeric("7");
    var inner := Op("*", Num("7"), Num("1"));
    assert PrefixTokens(inner) == ["*", "7", "1"];
    assert PrefixTokens(Op("+", Num("7"), inner)) == ["+", "7", "*", "7", "1"];
    assert PrefixTokens(Op("*", Num("5"), Op("+", Num("7"), inner))) == ["*", "5", "+", "7", "*", "7", "1"];
  }

  lemma CombinedOutputPrefix()
    ensures Prefix(Op("+", Num("2"), Op("*", Num("5"), Op("+", Num("7"), Num("7"))))) == "+ 2 * 5 + 7 7"
  {
    assert Prefix(Op("+", Num("7"), Num("7"))) == "+ 7 7";
    assert Prefix(Op("*", Num("5"), Op("+", Num("7"), Num("7")))) == "* 5 + 7 7";
  }

  /** The combined scenario: `+ 2 * 5 + 7 * 7 1` gives `+ 2 * 5 + 7 7`. */
  lemma CombinedFixture()
    ensures Run(["+", "2", "*", "5", "+", "7", "*", "7", "1"]) == Ok("+ 2 * 5 + 7 7")
  {
    CombinedInputParsed();
    RunOfTree(CombinedInput());
    CombinedExample();
    CombinedOutputPrefix();
  }
}
