/** Context-free grammars: symbols, rules and the grammar container. */
module CFG {

  /** A grammar symbol. Symbols are identified by their names: a grammar never
      holds two different symbols with the same name. */
  datatype Symbol = Symbol(name: string)

  /** A production `lhs --> rhs`; the right-hand side may be empty. */
  datatype Rule = Rule(lhs: Symbol, rhs: seq<Symbol>)

  /** The set of left-hand sides of `rules`. */
  ghost function LeftHandSides(rules: seq<Rule>): set<Symbol>
  {
    set r | r in rules :: r.lhs
  }

  /** The non-terminals of a rule list, collected one rule at a time. */
  method CollectNonTerminals(rules: seq<Rule>) returns (nts: set<Symbol>)
    ensures forall s :: s in nts <==> exists r :: r in rules && r.lhs == s
  {
    nts := {};
    for k := 0 to |rules|
      invariant forall s :: s in nts <==> exists r :: r in rules[..k] && r.lhs == s
    {
      nts := nts + {rules[k].lhs};
    }
    assert rules[..|rules|] == rules;
  }

  /** The length of the longest name in `symbols`. */
  function MaxNameLength(symbols: seq<Symbol>): (n: nat)
    ensures forall s :: s in symbols ==> |s.name| <= n
  {
    if symbols == [] then 0
    else
      var rest := MaxNameLength(symbols[1..]);
      if |symbols[0].name| > rest then |symbols[0].name| else rest
  }

  /** `name` is `base` followed by zero or more quote characters. */
  predicate IsPrimed(base: string, name: string)
  {
    |base| <= |name| && name[..|base|] == base &&
    forall k :: |base| <= k < |name| ==> name[k] == '\''
  }

  /** Some symbol of `symbols` is called `name`. */
  predicate NameUsed(symbols: seq<Symbol>, name: string)
  {
    exists s :: s in symbols && s.name == name
  }

  class Grammar {
    const symbols: seq<Symbol>
    const axiom: Symbol
    const rules: seq<Rule>
    const name: string
    const nonTerminals: set<Symbol>

    /** The non-terminals are exactly the left-hand sides of the rules. */
    ghost predicate Valid()
    {
      nonTerminals == LeftHandSides(rules)
    }

    constructor (symbols: seq<Symbol>, axiom: Symbol, rules: seq<Rule>, name: string)
      ensures this.symbols == symbols && this.axiom == axiom
      ensures this.rules == rules && this.name == name
      ensures Valid()
    {
      this.symbols := symbols;
      this.axiom := axiom;
      this.rules := rules;
      this.name := name;
      var nts := CollectNonTerminals(rules);
      this.nonTerminals := nts;
    }

    /** A symbol is a non-terminal iff some rule rewrites it. */
    function IsNonTerminal(s: Symbol): (r: bool)
      requires Valid()
      ensures r <==> exists rule :: rule in rules && rule.lhs == s
    {
      s in nonTerminals
    }

    /** Returns a symbol whose name is `symbolName` followed by as few quote
        characters as are needed so that no symbol of the grammar has that
        name. The grammar itself is left unchanged. */
    method CreateNewSymbol(symbolName: string) returns (s: Symbol)
      ensures !NameUsed(symbols, s.name)
      ensures IsPrimed(symbolName, s.name)
      ensures forall k :: |symbolName| <= k < |s.name| ==> NameUsed(symbols, s.name[..k])
      ensures !NameUsed(symbols, symbolName) ==> s.name == symbolName
    {
      var name := symbolName;
      var ok := false;
      ghost var bound := MaxNameLength(symbols) + |symbolName| + 1;
      while !ok
        invariant IsPrimed(symbolName, name)
        invariant |name| <= bound
        invariant ok ==> !NameUsed(symbols, name)
        invariant forall k :: |symbolName| <= k < |name| ==> NameUsed(symbols, name[..k])
        decreases (if ok then 0 else 1) + bound - |name|
      {
        ok := true;
        for q := 0 to |symbols|
          invariant ok <==> forall p :: 0 <= p < q ==> symbols[p].name != name
        {
          if symbols[q].name == name {
            ok := false;
          }
        }
        if !ok {
          ghost var p :| 0 <= p < |symbols| && symbols[p].name == name;
          assert symbols[p] in symbols;
          var longer := name + "'";
          assert longer[..|name|] == name;
          forall k | |symbolName| <= k < |longer|
            ensures NameUsed(symbols, longer[..k])
          {
            if k < |name| {
              assert longer[..k] == name[..k];
            }
          }
          name := longer;
        } else {
          forall t | t in symbols ensures t.name != name {
            var p :| 0 <= p < |symbols| && symbols[p] == t;
          }
        }
      }
      s := Symbol(name);
    }
  }
}
