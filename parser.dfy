/** The prefix parser of `BinOpAst.__init__`, as a function on the token list.

    The source pops the first token off the caller's list; a numeric token is
    a leaf, any other token an operator whose left and then right operand are
    parsed from what remains of the same list. `Parse` returns the tree and
    the tokens left over, or the failure `pop(0)` raises on an empty list.
 */
module Parser {
  import opened Ast
  import opened Text
  import opened Printers

  /** Running out of tokens before a subtree is complete (Python raises
      IndexError from `pop(0)`). */
  datatype ParseError = MalformedExpression

  datatype Result<T> = Ok(value: T) | Err(error: ParseError)

  function Parse(toks: seq<string>): (r: Result<(Tree, seq<string>)>)
    ensures r.Ok? ==> |r.value.1| < |toks|
    decreases |toks|
  {
    if |toks| == 0 then Err(MalformedExpression)
    else if IsNumeric(toks[0]) then Ok((Num(toks[0]), toks[1..]))
    else
      match Parse(toks[1..])
      case Err(e) => Err(e)
      case Ok((l, rest)) =>
        match Parse(rest)
        case Err(e) => Err(e)
        case Ok((r, rest')) => Ok((Op(toks[0], l, r), rest'))
  }

  /** The root of a parsed tree carries the first token, and has type
      `number` exactly when that token is numeric. */
  lemma ParseKind(toks: seq<string>)
    ensures Parse(toks).Ok? ==>
      |toks| > 0 && Parse(toks).value.0.val == toks[0] &&
      (Kind(Parse(toks).value.0) == Number <==> IsNumeric(toks[0]))
  {
  }

  /** One operator step of the parser, with the operator token already taken. */
  lemma ParseOperatorStep(v: string, toks: seq<string>)
    requires !IsNumeric(v)
    ensures Parse(toks).Err? ==> Parse([v] + toks).Err?
    ensures Parse(toks).Ok? && Parse(Parse(toks).value.1).Err? ==> Parse([v] + toks).Err?
    ensures Parse(toks).Ok? && Parse(Parse(toks).value.1).Ok? ==>
      Parse([v] + toks) == Ok((Op(v, Parse(toks).value.0, Parse(Parse(toks).value.1).value.0),
                               Parse(Parse(toks).value.1).value.1))
  {
    assert ([v] + toks)[1..] == toks;
  }

  /** Parsing the prefix tokens of a parser-shaped tree, followed by anything,
      rebuilds the tree and leaves exactly the trailing tokens. */
  lemma {:induction false} ParseComplete(t: Tree, suffix: seq<string>)
    requires Parsed(t)
    ensures Parse(PrefixTokens(t) + suffix) == Ok((t, suffix))
  {
    match t
    case Num(v) =>
      assert (PrefixTokens(t) + suffix)[1..] == suffix;
    case Op(v, l, r) =>
      var toks := PrefixTokens(t) + suffix;
      assert toks[0] == v;
      assert toks[1..] == PrefixTokens(l) + (PrefixTokens(r) + suffix);
      ParseComplete(l, PrefixTokens(r) + suffix);
      ParseComplete(r, suffix);
  }

  /** Whatever the parser returns is a parser-shaped tree whose prefix tokens
      are exactly the tokens it consumed from the front of the list. */
  lemma {:induction false} ParseSound(toks: seq<string>)
    ensures Parse(toks).Ok? ==>
      Parsed(Parse(toks).value.0) &&
      toks == PrefixTokens(Parse(toks).value.0) + Parse(toks).value.1
    decreases |toks|
  {
    if |toks| == 0 {
    } else if IsNumeric(toks[0]) {
      assert toks == [toks[0]] + toks[1..];
    } else {
      var tail := toks[1..];
      ParseSound(tail);
      if Parse(tail).Ok? {
        var rest := Parse(tail).value.1;
        ParseSound(rest);
        if Parse(rest).Ok? {
          var l, r, rest' := Parse(tail).value.0, Parse(rest).value.0, Parse(rest).value.1;
          assert Parse(toks) == Ok((Op(toks[0], l, r), rest'));
          ParseSoundOp(toks, l, rest, r, rest');
        }
      }
    }
  }

  /** The operator step of ParseSound, once both operands are known. */
  lemma ParseSoundOp(toks: seq<string>, l: Tree, rest: seq<string>, r: Tree, rest': seq<string>)
    requires |toks| > 0 && !IsNumeric(toks[0])
    requires Parsed(l) && toks[1..] == PrefixTokens(l) + rest
    requires Parsed(r) && rest == PrefixTokens(r) + rest'
    ensures Parsed(Op(toks[0], l, r))
    ensures toks == PrefixTokens(Op(toks[0], l, r)) + rest'
  {
    calc {
      toks;
      [toks[0]] + toks[1..];
      [toks[0]] + (PrefixTokens(l) + (PrefixTokens(r) + rest'));
      ([toks[0]] + PrefixTokens(l) + PrefixTokens(r)) + rest';
    }
  }

  /** The token consumption of the parser, both ways: it returns `(t, rest)`
      exactly when the list is the prefix tokens of a parser-shaped `t`
      followed by `rest`. */
  lemma ParseSpec(toks: seq<string>, t: Tree, rest: seq<string>)
    ensures Parse(toks) == Ok((t, rest)) <==> (toks == PrefixTokens(t) + rest && Parsed(t))
  {
    ParseSound(toks);
    if toks == PrefixTokens(t) + rest && Parsed(t) {
      ParseComplete(t, rest);
    }
  }

  /** Parsing fails exactly when no complete expression starts the list. */
  lemma ParseFailsSpec(toks: seq<string>)
    ensures Parse(toks).Err? <==>
      forall t: Tree, rest: seq<string> :: !(Parsed(t) && toks == PrefixTokens(t) + rest)
  {
    ParseSound(toks);
    forall t: Tree, rest: seq<string> | Parsed(t) && toks == PrefixTokens(t) + rest
      ensures Parse(toks).Ok?
    {
      ParseComplete(t, rest);
    }
  }

  /** An operator with no operand, or with only one, runs out of tokens. */
  lemma ParseFailureExamples()
    ensures Parse([]).Err?
    ensures Parse(["+"]).Err?
    ensures Parse(["+", "1"]).Err?
  {
    assert !IsNumeric("+") by { assert "+"[0] == '+'; }
    assert IsNumeric("1");
    assert ["+"][1..] == [];
    assert ["+", "1"][1..] == ["1"];
    assert ["1"][1..] == [];
  }

  /** Parsing the `split()` of the prefix rendering, followed by any suffix,
      rebuilds the tree and leaves exactly the suffix. */
  lemma RoundTrip(t: Tree, suffix: seq<string>)
    requires Parsed(t) && WordTexts(t)
    ensures Parse(Split(Prefix(t)) + suffix) == Ok((t, suffix))
  {
    TraversalsListVals(t);
    AllWordsOfTexts(t, PrefixTokens(t));
    PrefixIsJoin(t);
    SplitJoin(PrefixTokens(t));
    ParseComplete(t, suffix);
  }

  /** A tree parsed from `split()` tokens parses back from its own prefix
      rendering, with nothing left over. */
  lemma ParsePrintParse(toks: seq<string>)
    requires AllWords(toks) && Parse(toks).Ok?
    ensures Parse(Split(Prefix(Parse(toks).value.0))) == Ok((Parse(toks).value.0, []))
  {
    var t := Parse(toks).value.0;
    ParseSound(toks);
    var pre := PrefixTokens(t);
    assert forall i :: 0 <= i < |pre| ==> pre[i] == toks[i];
    TraversalsListVals(t);
    forall v | v in Vals(t) ensures IsWord(v) {
      assert v in multiset(pre);
      assert v in pre;
    }
    RoundTrip(t, []);
    assert Split(Prefix(t)) + [] == Split(Prefix(t));
  }
}
