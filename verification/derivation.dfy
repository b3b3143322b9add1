/** Derivations of a grammar, as parse trees. This is the reference meaning
    against which the items of the chart are shown sound. */
module Derivation {
  import opened CFG

  /** A leaf is a terminal matched against one token; a node applies a rule
      whose left-hand side is `sym` and whose right-hand side is the list of
      the roots of `kids`. */
  datatype Tree = Leaf(sym: Symbol) | Node(sym: Symbol, kids: seq<Tree>)

  function Roots(ts: seq<Tree>): seq<Symbol>
  {
    seq(|ts|, k requires 0 <= k < |ts| => ts[k].sym)
  }

  /** The tokens a tree spans, left to right. */
  function Yield(t: Tree): seq<string>
  {
    match t
    case Leaf(s) => [s.name]
    case Node(_, kids) => ForestYield(kids)
  }

  function ForestYield(ts: seq<Tree>): seq<string>
  {
    if ts == [] then [] else ForestYield(ts[..|ts| - 1]) + Yield(ts[|ts| - 1])
  }

  /** Every node applies a rule of `g`, and every leaf is a terminal (a symbol
      that no rule rewrites). */
  ghost predicate ValidTree(g: Grammar, t: Tree)
    requires g.Valid()
    decreases t
  {
    match t
    case Leaf(s) => !g.IsNonTerminal(s)
    case Node(s, kids) =>
      Rule(s, Roots(kids)) in g.rules &&
      forall k :: 0 <= k < |kids| ==> ValidTree(g, kids[k])
  }

  ghost predicate ValidForest(g: Grammar, ts: seq<Tree>)
    requires g.Valid()
  {
    forall k :: 0 <= k < |ts| ==> ValidTree(g, ts[k])
  }

  /** The symbol string `syms` derives the token string `s`. */
  ghost predicate DerivesSeq(g: Grammar, syms: seq<Symbol>, s: seq<string>)
    requires g.Valid()
  {
    exists ts :: ValidForest(g, ts) && Roots(ts) == syms && ForestYield(ts) == s
  }

  /** The word `w` belongs to the language of `g`. */
  ghost predicate Derives(g: Grammar, w: seq<string>)
    requires g.Valid()
  {
    exists t :: ValidTree(g, t) && t.sym == g.axiom && Yield(t) == w
  }

  lemma ForestYieldSnoc(ts: seq<Tree>, t: Tree)
    ensures ForestYield(ts + [t]) == ForestYield(ts) + Yield(t)
  {
    assert (ts + [t])[..|ts|] == ts;
  }

  /** The empty symbol string derives the empty token string. */
  lemma DerivesEmpty(g: Grammar)
    requires g.Valid()
    ensures DerivesSeq(g, [], [])
  {
    var ts: seq<Tree> := [];
    assert Roots(ts) == [];
    assert ValidForest(g, ts) && ForestYield(ts) == [];
  }

  /** Extending a derivation by one more tree. */
  lemma DerivesSnoc(g: Grammar, syms: seq<Symbol>, s: seq<string>, t: Tree)
    requires g.Valid()
    requires DerivesSeq(g, syms, s) && ValidTree(g, t)
    ensures DerivesSeq(g, syms + [t.sym], s + Yield(t))
  {
    var ts :| ValidForest(g, ts) && Roots(ts) == syms && ForestYield(ts) == s;
    var ts' := ts + [t];
    ForestYieldSnoc(ts, t);
    assert Roots(ts') == syms + [t.sym];
    assert ValidForest(g, ts');
  }

  /** A node built from a derivation of a rule's whole right-hand side. */
  lemma DerivesNode(g: Grammar, lhs: Symbol, rhs: seq<Symbol>, s: seq<string>)
    returns (t: Tree)
    requires g.Valid()
    requires Rule(lhs, rhs) in g.rules && DerivesSeq(g, rhs, s)
    ensures ValidTree(g, t) && t.sym == lhs && Yield(t) == s
  {
    var ts :| ValidForest(g, ts) && Roots(ts) == rhs && ForestYield(ts) == s;
    t := Node(lhs, ts);
  }

  /** A valid tree whose root some rule rewrites is a node that applies such
      a rule to valid children. */
  lemma NodeChildren(g: Grammar, t: Tree)
    requires g.Valid() && ValidTree(g, t) && g.IsNonTerminal(t.sym)
    ensures t.Node? && Rule(t.sym, Roots(t.kids)) in g.rules
    ensures ValidForest(g, t.kids) && |Roots(t.kids)| == |t.kids|
  {
    match t
    case Node(s, kids) =>
      assert Rule(s, Roots(kids)) in g.rules;
  }

  /** A node with a single child yields what that child yields. */
  lemma SingleChild(t: Tree)
    requires t.Node? && |t.kids| == 1
    ensures Roots(t.kids) == [t.kids[0].sym] && Yield(t) == Yield(t.kids[0])
  {
    assert t.kids[..0] == [];
    assert ForestYield(t.kids) == ForestYield(t.kids[..0]) + Yield(t.kids[0]);
  }

  /** A valid tree whose root no rule rewrites is a leaf. */
  lemma TerminalLeaf(g: Grammar, t: Tree)
    requires g.Valid() && ValidTree(g, t) && !g.IsNonTerminal(t.sym)
    ensures t == Leaf(t.sym)
  {
  }

  /** In a grammar without empty right-hand sides every tree spans at least
      one token per symbol below its root. */
  lemma {:induction false} ForestYieldLength(g: Grammar, ts: seq<Tree>)
    requires g.Valid() && ValidForest(g, ts)
    requires forall r :: r in g.rules ==> r.rhs != []
    ensures |ForestYield(ts)| >= |ts|
    decreases ts
  {
    if ts != [] {
      ForestYieldLength(g, ts[..|ts| - 1]);
      TreeYieldNonEmpty(g, ts[|ts| - 1]);
    }
  }

  lemma {:induction false} TreeYieldNonEmpty(g: Grammar, t: Tree)
    requires g.Valid() && ValidTree(g, t)
    requires forall r :: r in g.rules ==> r.rhs != []
    ensures |Yield(t)| >= 1
    decreases t
  {
    match t
    case Leaf(_) =>
    case Node(s, kids) =>
      assert Rule(s, Roots(kids)) in g.rules;
      ForestYieldLength(g, kids);
  }
}
