/** The natural-language grammar of the demo script and the sentence
    "book that flight", which the recognizer accepts. */
module Example {
  import opened CFG
  import opened Chart
  import opened Derivation
  import opened Earley

  const S := Symbol("S")
  const Aux := Symbol("Aux")
  const NP := Symbol("NP")
  const VP := Symbol("VP")
  const Det := Symbol("Det")
  const V := Symbol("V")
  const Noun := Symbol("Noun")
  const Book := Symbol("book")
  const That := Symbol("that")
  const Flight := Symbol("flight")
  const Does := Symbol("does")

  const NLSymbols: seq<Symbol> := [S, Aux, NP, VP, Det, Noun, V, Book, That, Flight, Does]

  const NLRules: seq<Rule> := [
    Rule(S, [NP, VP]),
    Rule(S, [Aux, NP, VP]),
    Rule(S, [VP]),
    Rule(NP, [Det, Noun]),
    Rule(VP, [V]),
    Rule(VP, [V, NP]),
    Rule(V, [Book]),
    Rule(Det, [That]),
    Rule(Aux, [Does]),
    Rule(Noun, [Flight])
  ]

  const Sentence: seq<string> := ["book", "that", "flight"]

  lemma NLTerminal(g: Grammar, t: Symbol)
    requires g.Valid() && g.rules == NLRules
    requires t in {Book, That, Flight}
    ensures !g.IsNonTerminal(t)
  {
  }

  /** A closed chart for the demo grammar and sentence, seeded at cell 0. */
  ghost predicate NLChart(g: Grammar, cells: seq<seq<Item>>)
  {
    g.Valid() && g.rules == NLRules && g.axiom == S &&
    |cells| == 4 && Closed(g, Sentence, cells) && Seeded(g, Sentence, cells)
  }

  /** A closed chart for the demo sentence. */
  ghost predicate ClosedFor(g: Grammar, cells: seq<seq<Item>>)
  {
    g.Valid() && |cells| == 4 && Closed(g, Sentence, cells)
  }

  /** The rules and tokens of the demo grammar that the sentence uses. */
  ghost predicate NLFacts(g: Grammar)
    requires g.Valid()
  {
    Rule(VP, [V, NP]) in g.rules && Rule(V, [Book]) in g.rules &&
    Rule(NP, [Det, Noun]) in g.rules && Rule(Det, [That]) in g.rules &&
    Rule(Noun, [Flight]) in g.rules &&
    !g.IsNonTerminal(Book) && !g.IsNonTerminal(That) && !g.IsNonTerminal(Flight)
  }

  lemma NLFactsHold(g: Grammar)
    requires g.Valid() && g.rules == NLRules
    ensures NLFacts(g)
  {
    assert NLRules[5] == Rule(VP, [V, NP]) && NLRules[6] == Rule(V, [Book]);
    assert NLRules[3] == Rule(NP, [Det, Noun]) && NLRules[7] == Rule(Det, [That]);
    assert NLRules[9] == Rule(Noun, [Flight]);
    NLTerminal(g, Book);
    NLTerminal(g, That);
    NLTerminal(g, Flight);
  }

  /** Cell 0 of a seeded chart holds the seed `S --> . VP`. */
  lemma BookSeed(g: Grammar, cells: seq<seq<Item>>)
    requires NLChart(g, cells)
    ensures Item(0, S, [], [VP]) in cells[0]
  {
    InitialChartProperties(g, Sentence);
    assert NLRules[2] == Rule(S, [VP]);
    assert Item(0, S, [], [VP]) in InitialChart(g, Sentence)[0];
  }

  /** Cell 0: the seed `S --> . VP` predicts `VP --> . V NP`, which predicts
      `V --> . book`. */
  lemma BookCell0(g: Grammar, cells: seq<seq<Item>>)
    requires ClosedFor(g, cells) && NLFacts(g)
    requires Item(0, S, [], [VP]) in cells[0]
    ensures Item(0, VP, [], [V, NP]) in cells[0]
    ensures Item(0, V, [], [Book]) in cells[0]
  {
    ClosedPredict(g, Sentence, cells, 0, Item(0, S, [], [VP]), Rule(VP, [V, NP]));
    ClosedPredict(g, Sentence, cells, 0, Item(0, VP, [], [V, NP]), Rule(V, [Book]));
  }

  /** Cell 1: scanning "book" finishes `V`, which advances `VP --> V . NP`. */
  lemma BookCell1Scan(g: Grammar, cells: seq<seq<Item>>)
    requires ClosedFor(g, cells) && NLFacts(g)
    requires Item(0, VP, [], [V, NP]) in cells[0] && Item(0, V, [], [Book]) in cells[0]
    ensures Item(0, VP, [V], [NP]) in cells[1]
  {
    var v0 := Item(0, V, [], [Book]);
    ClosedScan(g, Sentence, cells, 0, v0);
    assert AdvanceDot(v0) == Item(0, V, [Book], []);
    var vp0 := Item(0, VP, [], [V, NP]);
    ClosedComplete(g, Sentence, cells, 1, Item(0, V, [Book], []), vp0);
    assert AdvanceDot(vp0) == Item(0, VP, [V], [NP]);
  }

  /** Cell 1: `VP --> V . NP` predicts `NP --> . Det Noun` and `Det --> . that`. */
  lemma BookCell1(g: Grammar, cells: seq<seq<Item>>)
    requires ClosedFor(g, cells) && NLFacts(g)
    requires Item(0, VP, [], [V, NP]) in cells[0] && Item(0, V, [], [Book]) in cells[0]
    ensures Item(0, VP, [V], [NP]) in cells[1]
    ensures Item(1, NP, [], [Det, Noun]) in cells[1]
    ensures Item(1, Det, [], [That]) in cells[1]
  {
    BookCell1Scan(g, cells);
    ClosedPredict(g, Sentence, cells, 1, Item(0, VP, [V], [NP]), Rule(NP, [Det, Noun]));
    ClosedPredict(g, Sentence, cells, 1, Item(1, NP, [], [Det, Noun]), Rule(Det, [That]));
  }

  /** Cell 2: scanning "that" finishes `Det`, which advances
      `NP --> Det . Noun`; that predicts `Noun --> . flight`. */
  lemma BookCell2(g: Grammar, cells: seq<seq<Item>>)
    requires ClosedFor(g, cells) && NLFacts(g)
    requires Item(1, NP, [], [Det, Noun]) in cells[1] && Item(1, Det, [], [That]) in cells[1]
    ensures Item(1, NP, [Det], [Noun]) in cells[2]
    ensures Item(2, Noun, [], [Flight]) in cells[2]
  {
    var det1 := Item(1, Det, [], [That]);
    ClosedScan(g, Sentence, cells, 1, det1);
    assert AdvanceDot(det1) == Item(1, Det, [That], []);
    var np1 := Item(1, NP, [], [Det, Noun]);
    ClosedComplete(g, Sentence, cells, 2, Item(1, Det, [That], []), np1);
    assert AdvanceDot(np1) == Item(1, NP, [Det], [Noun]);
    ClosedPredict(g, Sentence, cells, 2, Item(1, NP, [Det], [Noun]), Rule(Noun, [Flight]));
  }

  /** Cell 3: scanning "flight" finishes `Noun`, then `NP`, `VP` and `S`. */
  lemma BookCell3(g: Grammar, cells: seq<seq<Item>>)
    requires ClosedFor(g, cells) && NLFacts(g)
    requires Item(0, S, [], [VP]) in cells[0]
    requires Item(0, VP, [V], [NP]) in cells[1]
    requires Item(1, NP, [Det], [Noun]) in cells[2] && Item(2, Noun, [], [Flight]) in cells[2]
    ensures Item(0, S, [VP], []) in cells[3]
  {
    var noun2 := Item(2, Noun, [], [Flight]);
    ClosedScan(g, Sentence, cells, 2, noun2);
    assert AdvanceDot(noun2) == Item(2, Noun, [Flight], []);
    var np2 := Item(1, NP, [Det], [Noun]);
    ClosedComplete(g, Sentence, cells, 3, Item(2, Noun, [Flight], []), np2);
    assert AdvanceDot(np2) == Item(1, NP, [Det, Noun], []);
    var vp1 := Item(0, VP, [V], [NP]);
    ClosedComplete(g, Sentence, cells, 3, Item(1, NP, [Det, Noun], []), vp1);
    assert AdvanceDot(vp1) == Item(0, VP, [V, NP], []);
    var s0 := Item(0, S, [], [VP]);
    ClosedComplete(g, Sentence, cells, 3, Item(0, VP, [V, NP], []), s0);
    assert AdvanceDot(s0) == Item(0, S, [VP], []);
  }

  /** Any closed chart seeded for "book that flight" with the demo grammar
      holds the finished item `[0, S --> VP .]` in its last cell. */
  lemma BookThatFlightChart(g: Grammar, cells: seq<seq<Item>>)
    requires NLChart(g, cells)
    ensures Item(0, S, [VP], []) in cells[3]
  {
    NLFactsHold(g);
    BookSeed(g, cells);
    BookCell0(g, cells);
    BookCell1(g, cells);
    BookCell2(g, cells);
    BookCell3(g, cells);
  }

  /** Parses "book that flight" with the demo grammar: it is accepted. */
  method BookThatFlight() returns (accepted: bool)
    ensures accepted
  {
    var g := new Grammar(NLSymbols, S, NLRules, "NL grammar");
    var T;
    T, accepted := ParseEarley(g, Sentence);
    BookThatFlightChart(g, Snapshot(T));
    assert Item(0, S, [VP], []) in T[|Sentence|].c;
  }

  /** No rule of the demo grammar has an empty right-hand side. */
  lemma NLNoEmptyRule(g: Grammar)
    requires g.rules == NLRules
    ensures forall r :: r in g.rules ==> r.rhs != []
  {
  }

  lemma NLNonTerminals(g: Grammar)
    requires g.Valid() && g.rules == NLRules
    ensures g.IsNonTerminal(S) && g.IsNonTerminal(VP) && g.IsNonTerminal(V)
  {
    assert NLRules[0].lhs == S && NLRules[4].lhs == VP && NLRules[6].lhs == V;
  }

  lemma RulesOfS(x: seq<Symbol>)
    requires Rule(S, x) in NLRules
    ensures x == [NP, VP] || x == [Aux, NP, VP] || x == [VP]
  {
  }

  lemma RulesOfVP(x: seq<Symbol>)
    requires Rule(VP, x) in NLRules
    ensures x == [V] || x == [V, NP]
  {
  }

  lemma RulesOfV(x: seq<Symbol>)
    requires Rule(V, x) in NLRules
    ensures x == [Book]
  {
  }

  /** Every tree of the demo grammar rooted at `V` yields "book". */
  lemma NLVYield(g: Grammar, t: Tree)
    requires g.Valid() && g.rules == NLRules && ValidTree(g, t) && t.sym == V
    ensures Yield(t) == ["book"]
  {
    NLNonTerminals(g);
    NodeChildren(g, t);
    RulesOfV(Roots(t.kids));
    SingleChild(t);
    NLTerminal(g, Book);
    TerminalLeaf(g, t.kids[0]);
  }

  /** A tree of the demo grammar rooted at `VP` that spans one token spans "book". */
  lemma NLVPSingle(g: Grammar, t: Tree)
    requires g.Valid() && g.rules == NLRules && ValidTree(g, t) && t.sym == VP
    requires |Yield(t)| == 1
    ensures Yield(t) == ["book"]
  {
    NLNonTerminals(g);
    NLNoEmptyRule(g);
    NodeChildren(g, t);
    RulesOfVP(Roots(t.kids));
    ForestYieldLength(g, t.kids);
    SingleChild(t);
    NLVYield(g, t.kids[0]);
  }

  /** A tree of the demo grammar rooted at `S` that spans one token spans "book". */
  lemma NLSSingle(g: Grammar, t: Tree)
    requires g.Valid() && g.rules == NLRules && ValidTree(g, t) && t.sym == S
    requires |Yield(t)| == 1
    ensures Yield(t) == ["book"]
  {
    NLNonTerminals(g);
    NLNoEmptyRule(g);
    NodeChildren(g, t);
    RulesOfS(Roots(t.kids));
    ForestYieldLength(g, t.kids);
    SingleChild(t);
    NLVPSingle(g, t.kids[0]);
  }

  /** The only one-token sentence of the demo grammar is "book", so it does
      not derive "flight". */
  lemma NLNoFlight(g: Grammar)
    requires g.Valid() && g.rules == NLRules && g.axiom == S
    ensures !Derives(g, ["flight"])
  {
    if Derives(g, ["flight"]) {
      var t :| ValidTree(g, t) && t.sym == g.axiom && Yield(t) == ["flight"];
      NLSSingle(g, t);
    }
  }

  /** The demo grammar has no empty right-hand side, so it derives no empty word. */
  lemma NLNoEmptyWord(g: Grammar)
    requires g.Valid() && g.rules == NLRules
    ensures !Derives(g, [])
  {
    NLNoEmptyRule(g);
    if Derives(g, []) {
      var t :| ValidTree(g, t) && t.sym == g.axiom && Yield(t) == [];
      TreeYieldNonEmpty(g, t);
    }
  }

  /** The empty word is rejected. */
  method EmptyWordRejected() returns (accepted: bool)
    ensures !accepted
  {
    var g := new Grammar(NLSymbols, S, NLRules, "NL grammar");
    var T;
    T, accepted := ParseEarley(g, []);
    NLNoEmptyWord(g);
  }

  /** The one-word sentence "flight" is rejected. */
  method FlightRejected() returns (accepted: bool)
    ensures !accepted
  {
    var g := new Grammar(NLSymbols, S, NLRules, "NL grammar");
    var T;
    T, accepted := ParseEarley(g, ["flight"]);
    NLNoFlight(g);
  }

  // ---------------------------------------------------------------------
  // Grammars with empty right-hand sides
  // ---------------------------------------------------------------------

  const A := Symbol("A")

  /** The grammar with the single rule `A --> ` (empty) accepts the empty
      word: its seed item is already finished. */
  method EpsilonAccepted() returns (accepted: bool)
    ensures accepted
  {
    var g := new Grammar([A], A, [Rule(A, [])], "epsilon grammar");
    var T;
    T, accepted := ParseEarley(g, []);
    var seed := Item(0, A, [], []);
    assert ExpansionItems(g.rules, A, 0) == [seed] by {
      assert g.rules[..0] == [];
    }
    assert AppendAll([], [seed]) == [seed] by {
      assert [seed][..0] == [];
    }
    assert T[0].c[0] == Item(0, A, [], []);
  }

  const ChainRules: seq<Rule> := [Rule(S, [A]), Rule(A, [])]

  /** With `S --> A` and `A --> ` (empty), cell 0 starts with the seed
      `S --> . A`; predicting `A` places the finished `A --> .` after it, and
      completing `A` in its own cell advances the seed. */
  lemma ChainChart(g: Grammar, cells: seq<seq<Item>>)
    requires g.Valid() && g.rules == ChainRules && g.axiom == S
    requires |cells| == 1 && Closed(g, [], cells) && Seeded(g, [], cells)
    ensures Item(0, S, [A], []) in cells[0]
  {
    var seed := Item(0, S, [], [A]);
    assert ExpansionItems(ChainRules, S, 0) == [seed] by {
      var first := [Rule(S, [A])];
      assert ExpansionItems(first, S, 0) == [seed] by {
        assert first[..0] == [];
      }
      assert ChainRules[..1] == first;
      assert ExpansionItems(ChainRules, S, 0) == ExpansionItems(first, S, 0) + [];
    }
    assert AppendAll([], [seed]) == [seed] by {
      assert [seed][..0] == [];
    }
    assert cells[0][0] == seed;
    assert g.IsNonTerminal(A) by {
      assert ChainRules[1].lhs == A;
    }
    ClosedPredict(g, [], cells, 0, seed, Rule(A, []));
    var k :| 0 <= k < |cells[0]| && cells[0][k] == Item(0, A, [], []);
    ClosedCompleteSameCell(g, [], cells, 0, k, 0);
    assert AdvanceDot(seed) == Item(0, S, [A], []);
  }

  /** The grammar `S --> A`, `A --> ` (empty) accepts the empty word. */
  method NullableChainAccepted() returns (accepted: bool)
    ensures accepted
  {
    var g := new Grammar([S, A], S, ChainRules, "nullable chain");
    var T;
    T, accepted := ParseEarley(g, []);
    ChainChart(g, Snapshot(T));
    assert Item(0, S, [A], []) in T[0].c;
  }
}
