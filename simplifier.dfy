/** The identity rewrites of `BinOpAst` (`additive_identity`,
    `multiplicative_identity`) and their sequencing in `simplify_binops`, as
    functions on trees.

    Both passes run the same rule with a different identity text ("0" and
    "1"). Starting at the root, the rule walks down the right spine only. It
    stops at the first node that is a leaf, or whose right child has the
    identity text, or whose right child is a leaf. At that node it collapses
    at most once, and never looks at the operator symbol:
      - right child's text is the identity: the node becomes a leaf carrying
        its left child's text;
      - else, right child a leaf and left child's text the identity: the node
        becomes a leaf carrying its right child's text;
      - otherwise nothing changes.
    The source overwrites `val` and `type` in place and leaves the children
    behind. The collapsed node still acts as a leaf: the printers branch on
    its `type`; a later pass on it finds the stale `right` truthy and then
    `type` not operator, and changes nothing; a pass on its parent reads only
    the copied `val` and the `type`. That is what `Num(...)` says here.
 */
module Simplifier {
  import opened Ast

  /** One identity pass with identity text `id`: the rewritten tree and
      whether a node collapsed. */
  function IdentityPass(t: Tree, id: string): (res: (Tree, bool))
    ensures !res.1 ==> res.0 == t
    ensures res.1 <==> Size(res.0) < Size(t)
    ensures t.Num? ==> !res.1
  {
    match t
    case Num(_) => (t, false)
    case Op(v, l, r) =>
      if r.val == id then (Num(l.val), true)
      else if r.Num? then (if l.val == id then (Num(r.val), true) else (t, false))
      else
        var (r', changed) := IdentityPass(r, id);
        (Op(v, l, r'), changed)
  }

  /** `additive_identity`: the pass with identity "0"; at the root it is
      `x + 0 = x`, and `0 + x = x` when `x` is a leaf. */
  function AdditiveIdentity(t: Tree): (r: (Tree, bool))
    ensures t.Op? && t.right.val == "0" ==> r == (Num(t.left.val), true)
    ensures t.Op? && t.right.val != "0" && t.right.Num? && t.left.val == "0" ==> r == (Num(t.right.val), true)
  {
    IdentityPass(t, "0")
  }

  /** `multiplicative_identity`: the pass with identity "1"; at the root it
      is `x * 1 = x`, and `1 * x = x` when `x` is a leaf. */
  function MultiplicativeIdentity(t: Tree): (r: (Tree, bool))
    ensures t.Op? && t.right.val == "1" ==> r == (Num(t.left.val), true)
    ensures t.Op? && t.right.val != "1" && t.right.Num? && t.left.val == "1" ==> r == (Num(t.right.val), true)
  {
    IdentityPass(t, "1")
  }

  /** `simplify_binops`: the additive pass, then the multiplicative pass on
      its result (`mult_by_zero` and `constant_fold` do nothing). */
  function Simplify(t: Tree): (s: Tree)
    ensures Size(s) <= Size(t)
  {
    MultiplicativeIdentity(AdditiveIdentity(t).0).0
  }

  // ---------------------------------------------------------------------
  // An independent description of a pass: the right spine, the node where
  // the walk stops, and what happens there.

  /** The right spine: the root, its right child, that node's right child, ...
      down to the leaf that ends it. */
  function Spine(t: Tree): (s: seq<Tree>)
    ensures |s| >= 1 && s[0] == t && s[|s| - 1].Num?
    ensures t.Num? <==> |s| == 1
    ensures forall j :: 0 <= j < |s| - 1 ==> s[j].Op?
  {
    match t
    case Num(_) => [t]
    case Op(_, _, r) => [t] + Spine(r)
  }

  /** `t` with its `k`-th spine node replaced by `n`. */
  function ReplaceSpine(t: Tree, k: nat, n: Tree): (u: Tree)
    requires k < |Spine(t)|
    decreases k
  {
    if k == 0 then n else Op(t.val, t.left, ReplaceSpine(t.right, k - 1, n))
  }

  /** The walk of a pass ends at node `n`. */
  predicate Stops(n: Tree, id: string) {
    n.Num? || n.right.val == id || n.right.Num?
  }

  /** `k` is the first spine index where the walk ends. */
  predicate FirstStop(t: Tree, id: string, k: nat) {
    k < |Spine(t)| && Stops(Spine(t)[k], id) &&
    forall j :: 0 <= j < k ==> !Stops(Spine(t)[j], id)
  }

  /** What the pass does once the walk has ended at spine index `k`. */
  function Outcome(t: Tree, id: string, k: nat): (Tree, bool)
    requires k < |Spine(t)|
  {
    var n := Spine(t)[k];
    if n.Num? then (t, false)
    else if n.right.val == id then (ReplaceSpine(t, k, Num(n.left.val)), true)
    else if n.left.val == id then (ReplaceSpine(t, k, Num(n.right.val)), true)
    else (t, false)
  }

  lemma {:induction false} FirstStopExists(t: Tree, id: string)
    ensures exists k: nat :: FirstStop(t, id, k)
  {
    if Stops(t, id) {
      assert FirstStop(t, id, 0);
    } else {
      FirstStopExists(t.right, id);
      var k: nat :| FirstStop(t.right, id, k);
      assert Spine(t) == [t] + Spine(t.right);
      assert FirstStop(t, id, k + 1);
    }
  }

  /** The pass is the outcome at the first spine node where its walk ends. */
  lemma {:induction false} PassAtFirstStop(t: Tree, id: string, k: nat)
    requires FirstStop(t, id, k)
    ensures IdentityPass(t, id) == Outcome(t, id, k)
    decreases k
  {
    if k > 0 {
      assert !Stops(t, id);
      var r := t.right;
      assert Spine(t) == [t] + Spine(r);
      assert FirstStop(r, id, k - 1) by {
        forall j | 0 <= j < k - 1 ensures !Stops(Spine(r)[j], id) {
          assert Spine(r)[j] == Spine(t)[j + 1];
        }
      }
      PassAtFirstStop(r, id, k - 1);
    }
  }

  /** Replacing a spine node keeps every spine node above it, with its text
      and its whole left subtree, puts `n` in its place, and changes nothing else. */
  lemma {:induction false} ReplaceSpineFrame(t: Tree, k: nat, n: Tree)
    requires k < |Spine(t)|
    ensures Spine(ReplaceSpine(t, k, n)) == SpineAbove(t, k, n) + Spine(n)
    decreases k
  {
    if k > 0 {
      var r := t.right;
      ReplaceSpineFrame(r, k - 1, n);
      var u := ReplaceSpine(t, k, n);
      calc {
        Spine(u);
        [u] + Spine(ReplaceSpine(r, k - 1, n));
        [u] + (SpineAbove(r, k - 1, n) + Spine(n));
        ([u] + SpineAbove(r, k - 1, n)) + Spine(n);
      }
    }
  }

  /** Replacing a spine node by `n` changes the size by the difference. */
  lemma {:induction false} ReplaceSpineSize(t: Tree, k: nat, n: Tree)
    requires k < |Spine(t)|
    ensures Size(ReplaceSpine(t, k, n)) == Size(t) - Size(Spine(t)[k]) + Size(n)
    decreases k
  {
    if k > 0 {
      assert Spine(t) == [t] + Spine(t.right);
      ReplaceSpineSize(t.right, k - 1, n);
    }
  }

  /** The spine nodes above index `k` once the `k`-th is replaced by `n`:
      each keeps its text and its left subtree. */
  function SpineAbove(t: Tree, k: nat, n: Tree): (s: seq<Tree>)
    requires k < |Spine(t)|
    ensures |s| == k
    ensures forall j :: 0 <= j < k ==>
      Spine(t)[j].Op? && s[j].Op? && s[j].val == Spine(t)[j].val && s[j].left == Spine(t)[j].left
    decreases k
  {
    if k == 0 then []
    else
      assert Spine(t) == [t] + Spine(t.right);
      [ReplaceSpine(t, k, n)] + SpineAbove(t.right, k - 1, n)
  }

  /** The scope of a pass: it either leaves the tree as it is, or collapses
      exactly one operator node of the right spine into a leaf carrying the
      text of one of that node's children. */
  lemma PassScope(t: Tree, id: string)
    ensures !IdentityPass(t, id).1 ==> IdentityPass(t, id).0 == t
    ensures IdentityPass(t, id).1 ==>
      exists k: nat, v: string ::
        k < |Spine(t)| && Spine(t)[k].Op? &&
        (v == Spine(t)[k].left.val || v == Spine(t)[k].right.val) &&
        IdentityPass(t, id).0 == ReplaceSpine(t, k, Num(v))
  {
    FirstStopExists(t, id);
    var k: nat :| FirstStop(t, id, k);
    PassAtFirstStop(t, id, k);
    var n := Spine(t)[k];
    if IdentityPass(t, id).1 {
      var v := if n.right.val == id then n.left.val else n.right.val;
      assert IdentityPass(t, id).0 == ReplaceSpine(t, k, Num(v));
    }
  }

  // ---------------------------------------------------------------------
  // The operator symbol is never inspected.

  /** `t` and `u` differ at most in their operator symbols. */
  predicate SameLeaves(t: Tree, u: Tree) {
    match t
    case Num(v) => u.Num? && u.val == v
    case Op(_, l, r) => u.Op? && SameLeaves(l, u.left) && SameLeaves(r, u.right)
  }

  /** `t` and `u` have the same shape, whatever their texts. */
  predicate SameShape(t: Tree, u: Tree) {
    match t
    case Num(_) => u.Num?
    case Op(_, l, r) => u.Op? && SameShape(l, u.left) && SameShape(r, u.right)
  }

  /** No operator text equals `id` (true of every parsed tree when `id` is numeric). */
  predicate OpTextsDiffer(t: Tree, id: string) {
    match t
    case Num(_) => true
    case Op(v, l, r) => v != id && OpTextsDiffer(l, id) && OpTextsDiffer(r, id)
  }

  /** Two trees that differ only in operator symbols are rewritten alike:
      the same decision, and results of the same shape. */
  lemma {:induction false} SymbolsNotInspected(t: Tree, u: Tree, id: string)
    requires SameLeaves(t, u) && OpTextsDiffer(t, id) && OpTextsDiffer(u, id)
    ensures IdentityPass(t, id).1 == IdentityPass(u, id).1
    ensures SameShape(IdentityPass(t, id).0, IdentityPass(u, id).0)
  {
    match t
    case Num(_) =>
    case Op(_, l, r) =>
      assert (r.val == id) == (u.right.val == id);
      assert (l.val == id) == (u.left.val == id);
      if r.val != id && r.Op? {
        SymbolsNotInspected(r, u.right, id);
        SameShapeRefl(l);
        SameShapeOfSameLeaves(l, u.left);
      } else if r.val != id && l.val != id {
        SameShapeOfSameLeaves(t, u);
      }
  }

  lemma {:induction false} SameShapeRefl(t: Tree)
    ensures SameShape(t, t)
  {
    match t
    case Num(_) =>
    case Op(_, l, r) => SameShapeRefl(l); SameShapeRefl(r);
  }

  lemma {:induction false} SameShapeOfSameLeaves(t: Tree, u: Tree)
    requires SameLeaves(t, u)
    ensures SameShape(t, u)
  {
    match t
    case Num(_) =>
    case Op(_, l, r) => SameShapeOfSameLeaves(l, u.left); SameShapeOfSameLeaves(r, u.right);
  }

  // ---------------------------------------------------------------------
  // simplify_binops

  /** `simplify_binops` leaves a tree unchanged exactly when neither pass
      collapses anything in it. */
  lemma SimplifyUnchangedSpec(t: Tree)
    ensures Simplify(t) == t <==> !AdditiveIdentity(t).1 && !MultiplicativeIdentity(t).1
  {
  }

  /** Each pass collapses at most one node, so `simplify_binops` collapses at
      most two: it removes at least 2 nodes per collapse, and the result is
      strictly smaller exactly when some node collapsed. */
  lemma SimplifyShrinks(t: Tree)
    ensures Size(Simplify(t)) < Size(t) <==>
      AdditiveIdentity(t).1 || MultiplicativeIdentity(AdditiveIdentity(t).0).1
    ensures Size(Simplify(t)) <= Size(t) - 2 * (
      (if AdditiveIdentity(t).1 then 1 else 0) +
      (if MultiplicativeIdentity(AdditiveIdentity(t).0).1 then 1 else 0))
  {
    PassShrinksByTwo(t, "0");
    PassShrinksByTwo(AdditiveIdentity(t).0, "1");
  }

  /** A collapse removes the two children of the collapsed node, at least. */
  lemma PassShrinksByTwo(t: Tree, id: string)
    ensures IdentityPass(t, id).1 ==> Size(IdentityPass(t, id).0) <= Size(t) - 2
  {
    PassScope(t, id);
    if IdentityPass(t, id).1 {
      var k: nat, v: string :|
        k < |Spine(t)| && Spine(t)[k].Op? &&
        (v == Spine(t)[k].left.val || v == Spine(t)[k].right.val) &&
        IdentityPass(t, id).0 == ReplaceSpine(t, k, Num(v));
      ReplaceSpineSize(t, k, Num(v));
    }
  }

  // ---------------------------------------------------------------------
  // Traced behaviour on small inputs.

  /** `+ 5 0` and `* 5 0` both become `5` (the symbol is not looked at);
      `* 7 1` and `+ 5 1` become `7` and `5`; `+ 2 3` stays. */
  lemma IdentityExamples()
    ensures Simplify(Op("+", Num("5"), Num("0"))) == Num("5")
    ensures Simplify(Op("*", Num("5"), Num("0"))) == Num("5")
    ensures Simplify(Op("*", Num("7"), Num("1"))) == Num("7")
    ensures Simplify(Op("*", Num("5"), Num("1"))) == Num("5")
    ensures Simplify(Op("+", Num("5"), Num("1"))) == Num("5")
    ensures Simplify(Op("+", Num("0"), Num("5"))) == Num("5")
    ensures Simplify(Op("+", Num("2"), Num("3"))) == Op("+", Num("2"), Num("3"))
  {
  }

  /** A collapsed node whose left child was an operator becomes a leaf whose
      text is that operator symbol. */
  lemma CollapseCopiesOperatorText()
    ensures AdditiveIdentity(Op("+", Op("*", Num("2"), Num("3")), Num("0"))) == (Num("*"), true)
  {
  }

  /** One pass is not a fixed point: `+ 0 + 2 0` becomes `+ 0 2`, which the
      same pass would collapse again; and an identity in a left subtree is
      never reached. */
  lemma SinglePassLimits()
    ensures AdditiveIdentity(Op("+", Num("0"), Op("+", Num("2"), Num("0"))))
            == (Op("+", Num("0"), Num("2")), true)
    ensures AdditiveIdentity(Op("+", Num("0"), Num("2"))) == (Num("2"), true)
    ensures AdditiveIdentity(Op("+", Op("+", Num("1"), Num("0")), Num("2")))
            == (Op("+", Op("+", Num("1"), Num("0")), Num("2")), false)
  {
  }

  /** The combined scenario: `+ 2 * 5 + 7 * 7 1` simplifies to `+ 2 * 5 + 7 7`
      (the additive pass finds nothing, the multiplicative pass collapses
      the innermost `* 7 1`). */
  lemma CombinedExample()
    ensures Simplify(Op("+", Num("2"), Op("*", Num("5"), Op("+", Num("7"), Op("*", Num("7"), Num("1"))))))
            == Op("+", Num("2"), Op("*", Num("5"), Op("+", Num("7"), Num("7"))))
  {
  }
}
