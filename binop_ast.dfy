/** The `BinOpAst` class itself: objects whose fields the parser fills in and
    the identity passes overwrite in place, each operation proved against the
    tree functions of modules Parser, Printers and Simplifier.
 */
module BinExpParser {
  import opened Ast
  import Parser
  import Printers
  import Simplifier
  import Pipeline

  datatype Option<T> = None | Some(value: T)

  /** The caller's token list, which the parser destroys from the front. */
  class TokenList {
    var items: seq<string>

    constructor (toks: seq<string>)
      ensures items == toks
    {
      items := toks;
    }

    /** `pop(0)`: `None` where Python raises IndexError on an empty list. */
    method PopFront() returns (tok: Option<string>)
      modifies this
      ensures old(items) == [] ==> tok == None && items == []
      ensures old(items) != [] ==> tok == Some(old(items)[0]) && items == old(items)[1..]
    {
      if items == [] {
        tok := None;
      } else {
        tok := Some(items[0]);
        items := items[1..];
      }
    }
  }

  class BinOpAst {
    var val: string
    var kind: NodeType
    /** Children of an operator node; `null` in a parsed leaf. A collapsed
        node keeps the children it had, as in the source. */
    var left: BinOpAst?
    var right: BinOpAst?
    ghost var Repr: set<object>

    /** An operator node owns two disjoint, valid subtrees; a number node's
        children, if any are left over from a collapse, are not looked at. */
    ghost predicate Valid()
      reads this, Repr
      decreases Repr
    {
      this in Repr &&
      (kind == Operator ==>
        left != null && right != null &&
        left in Repr && right in Repr &&
        left.Repr <= Repr && right.Repr <= Repr &&
        this !in left.Repr && this !in right.Repr &&
        left.Repr !! right.Repr &&
        left.Valid() && right.Valid())
    }

    /** The tree this object stands for. */
    ghost function Model(): (t: Tree)
      reads this, Repr
      requires Valid()
      ensures t.val == val && Kind(t) == kind
      decreases Repr
    {
      if kind == Number then Num(val) else Op(val, left.Model(), right.Model())
    }

    /** A leaf, as `__init__` builds it for a numeric token. */
    constructor Leaf(v: string)
      ensures Valid() && fresh(Repr)
      ensures Model() == Num(v) && left == null && right == null
    {
      val, kind := v, Number;
      left, right := null, null;
      Repr := {this};
    }

    /** An operator node over two already parsed subtrees. */
    constructor Apply(v: string, l: BinOpAst, r: BinOpAst)
      requires l.Valid() && r.Valid() && l.Repr !! r.Repr
      ensures Valid() && Repr == {this} + l.Repr + r.Repr
      ensures Model() == Op(v, l.Model(), r.Model())
    {
      val, kind := v, Operator;
      left, right := l, r;
      Repr := {this} + l.Repr + r.Repr;
    }

    /** `BinOpAst(prefix_list)`: pops one token; a numeric one is a leaf,
        any other one the operator over a left and then a right subtree
        parsed from the same list. Returns `null` where `pop(0)` raises, and
        then the list has been emptied. */
    static method Parse(ts: TokenList) returns (n: BinOpAst?)
      modifies ts
      ensures |ts.items| <= old(|ts.items|)
      ensures Parser.Parse(old(ts.items)).Err? ==> n == null && ts.items == []
      ensures Parser.Parse(old(ts.items)).Ok? ==>
        n != null && n.Valid() && fresh(n.Repr) &&
        (n.Model(), ts.items) == Parser.Parse(old(ts.items)).value
      decreases |ts.items|, 0
    {
      var tok := ts.PopFront();
      if tok.None? {
        return null;
      }
      var v := tok.value;
      if IsNumeric(v) {
        n := new BinOpAst.Leaf(v);
      } else {
        n := ParseOperands(v, ts);
      }
    }

    /** The operator branch of `__init__`, once the operator token `v` has
        been popped: the left and then the right subtree, from the same list. */
    static method ParseOperands(v: string, ts: TokenList) returns (n: BinOpAst?)
      requires !IsNumeric(v)
      modifies ts
      ensures |ts.items| <= old(|ts.items|)
      ensures Parser.Parse([v] + old(ts.items)).Err? ==> n == null && ts.items == []
      ensures Parser.Parse([v] + old(ts.items)).Ok? ==>
        n != null && n.Valid() && fresh(n.Repr) &&
        (n.Model(), ts.items) == Parser.Parse([v] + old(ts.items)).value
      decreases |ts.items|, 1
    {
      ghost var toks := ts.items;
      Parser.ParseOperatorStep(v, toks);
      var l := Parse(ts);
      if l == null {
        return null;
      }
      ghost var lrepr := l.Repr;
      assert fresh(lrepr);
      var r := Parse(ts);
      if r == null {
        return null;
      }
      ghost var rrepr := r.Repr;
      assert fresh(rrepr);
      n := new BinOpAst.Apply(v, l, r);
      assert n.Repr == {n} + lrepr + rrepr;
    }

    /** `prefix_str`. */
    method PrefixStr() returns (s: string)
      requires Valid()
      ensures s == Printers.Prefix(Model())
      decreases Repr
    {
      match kind
      case Number =>
        s := val;
      case Operator =>
        assert Model() == Op(val, left.Model(), right.Model());
        var l := left.PrefixStr();
        var r := right.PrefixStr();
        s := val + " " + l + " " + r;
    }

    /** `infix_str`. */
    method InfixStr() returns (s: string)
      requires Valid()
      ensures s == Printers.Infix(Model())
      decreases Repr
    {
      match kind
      case Number =>
        s := val;
      case Operator =>
        assert Model() == Op(val, left.Model(), right.Model());
        var l := left.InfixStr();
        var r := right.InfixStr();
        s := "(" + l + " " + val + " " + r + ")";
    }

    /** `postfix_str`. */
    method PostfixStr() returns (s: string)
      requires Valid()
      ensures s == Printers.Postfix(Model())
      decreases Repr
    {
      match kind
      case Number =>
        s := val;
      case Operator =>
        ghost var m := Model();
        assert m == Op(val, left.Model(), right.Model());
        var l := left.PostfixStr();
        var r := right.PostfixStr();
        s := l + " " + r + " " + val;
        assert s == Printers.Postfix(m);
    }

    /** The body shared by `additive_identity` and `multiplicative_identity`,
        with identity text `id`: walk the right spine, and at the first node
        whose right child is the identity or a number, overwrite that node's
        `val` and `type` in place. */
    method IdentityCollapse(id: string) returns (changed: bool)
      requires Valid()
      modifies Repr
      ensures Valid() && Repr == old(Repr)
      ensures (Model(), changed) == Simplifier.IdentityPass(old(Model()), id)
      decreases Repr
    {
      if right != null {
        if kind == Operator {
          if right.val == id {
            val, kind := left.val, Number;
            changed := true;
          } else if right.kind == Number {
            if left.val == id {
              val, kind := right.val, Number;
              changed := true;
            } else {
              changed := false;
            }
          } else {
            changed := right.IdentityCollapse(id);
          }
        } else {
          changed := false;
        }
      } else {
        changed := false;
      }
    }

    /** `additive_identity`. */
    method AdditiveIdentity() returns (changed: bool)
      requires Valid()
      modifies Repr
      ensures Valid() && Repr == old(Repr)
      ensures (Model(), changed) == Simplifier.AdditiveIdentity(old(Model()))
    {
      changed := IdentityCollapse("0");
    }

    /** `multiplicative_identity`. */
    method MultiplicativeIdentity() returns (changed: bool)
      requires Valid()
      modifies Repr
      ensures Valid() && Repr == old(Repr)
      ensures (Model(), changed) == Simplifier.MultiplicativeIdentity(old(Model()))
    {
      changed := IdentityCollapse("1");
    }

    /** `mult_by_zero`: an unimplemented stub; it may change nothing. */
    method MultByZero()
      requires Valid()
      ensures Valid() && Model() == old(Model())
    {
    }

    /** `constant_fold`: an unimplemented stub; it may change nothing. */
    method ConstantFold()
      requires Valid()
      ensures Valid() && Model() == old(Model())
    {
    }

    /** `simplify_binops`: the four passes in their fixed order. */
    method SimplifyBinops()
      requires Valid()
      modifies Repr
      ensures Valid() && Repr == old(Repr)
      ensures Model() == Simplifier.Simplify(old(Model()))
    {
      var _ := AdditiveIdentity();
      var _ := MultiplicativeIdentity();
      MultByZero();
      ConstantFold();
    }
  }

  /** What the test does with one fixture's tokens: build the tree, simplify
      it, and render it in prefix notation. */
  method SimplifiedPrefix(tokens: seq<string>) returns (out: Parser.Result<string>)
    ensures out == Pipeline.Run(tokens)
  {
    var ts := new TokenList(tokens);
    var t := BinOpAst.Parse(ts);
    if t == null {
      return Parser.Err(Parser.MalformedExpression);
    }
    t.SimplifyBinops();
    var s := t.PrefixStr();
    out := Parser.Ok(s);
  }
}
