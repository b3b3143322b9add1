/** The Earley chart engine: dot advancement, initialisation, the three
    inference steps, the fixed-point driver and the acceptance test. */
module Earley {
  import opened CFG
  import opened Chart
  import opened Derivation

  // ---------------------------------------------------------------------
  // Items produced by the inference steps
  // ---------------------------------------------------------------------

  /** The same dotted rule with the dot moved one symbol to the right. */
  function AdvanceDot(it: Item): (r: Item)
    requires it.ad != []
    ensures r.i == it.i && r.lhs == it.lhs
    ensures r.bd + r.ad == it.bd + it.ad
    ensures |r.bd| == |it.bd| + 1 && |r.ad| == |it.ad| - 1
  {
    Item(it.i, it.lhs, it.bd + [it.ad[0]], it.ad[1..])
  }

  /** `x` expects, right after its dot, a symbol named like `a`. */
  predicate Waits(x: Item, a: Symbol)
  {
    x.ad != [] && x.ad[0].name == a.name
  }

  /** One fresh item `[j, a --> . rhs]` for each rule `a --> rhs`, in rule order. */
  function ExpansionItems(rules: seq<Rule>, a: Symbol, j: nat): seq<Item>
  {
    if rules == [] then []
    else
      var last := rules[|rules| - 1];
      ExpansionItems(rules[..|rules| - 1], a, j) +
      (if last.lhs.name == a.name then [Item(j, a, [], last.rhs)] else [])
  }

  /** Inserting the expansion of one more rule inserts at most that rule's item. */
  lemma ExpansionItemsSnoc(c: seq<Item>, rules: seq<Rule>, q: nat, a: Symbol, j: nat)
    requires q < |rules|
    ensures AppendAll(c, ExpansionItems(rules[..q + 1], a, j)) ==
      (if rules[q].lhs.name == a.name
       then Appended(AppendAll(c, ExpansionItems(rules[..q], a, j)), Item(j, a, [], rules[q].rhs))
       else AppendAll(c, ExpansionItems(rules[..q], a, j)))
  {
    var prefix := rules[..q + 1];
    assert prefix[..|prefix| - 1] == rules[..q] && prefix[|prefix| - 1] == rules[q];
    var before := ExpansionItems(rules[..q], a, j);
    if rules[q].lhs.name == a.name {
      assert ExpansionItems(prefix, a, j) == before + [Item(j, a, [], rules[q].rhs)];
      AppendAllSnoc(c, before, Item(j, a, [], rules[q].rhs));
    } else {
      assert ExpansionItems(prefix, a, j) == before + [];
      assert before + [] == before;
    }
  }

  /** The items of `c` waiting for `a`, with their dot moved over it. */
  function Advanced(c: seq<Item>, a: Symbol): seq<Item>
  {
    if c == [] then []
    else
      var last := c[|c| - 1];
      Advanced(c[..|c| - 1], a) + (if Waits(last, a) then [AdvanceDot(last)] else [])
  }

  /** Visiting one more item of the origin cell inserts at most its advance. */
  lemma AdvancedSnoc(d: seq<Item>, c: seq<Item>, k: nat, a: Symbol)
    requires k < |c|
    ensures AppendAll(d, Advanced(c[..k + 1], a)) ==
      (if Waits(c[k], a)
       then Appended(AppendAll(d, Advanced(c[..k], a)), AdvanceDot(c[k]))
       else AppendAll(d, Advanced(c[..k], a)))
  {
    var prefix := c[..k + 1];
    assert prefix[..|prefix| - 1] == c[..k] && prefix[|prefix| - 1] == c[k];
    var before := Advanced(c[..k], a);
    if Waits(c[k], a) {
      assert Advanced(prefix, a) == before + [AdvanceDot(c[k])];
      AppendAllSnoc(d, before, AdvanceDot(c[k]));
    } else {
      assert Advanced(prefix, a) == before + [];
      assert before + [] == before;
    }
  }

  lemma {:induction false} ExpansionItemsMembers(rules: seq<Rule>, a: Symbol, j: nat)
    ensures forall x :: x in ExpansionItems(rules, a, j) <==>
      exists r :: r in rules && r.lhs == a && x == Item(j, a, [], r.rhs)
  {
    if rules != [] {
      var init := rules[..|rules| - 1];
      ExpansionItemsMembers(init, a, j);
      assert rules == init + [rules[|rules| - 1]];
    }
  }

  lemma {:induction false} AdvancedMembers(c: seq<Item>, a: Symbol)
    ensures forall y :: y in Advanced(c, a) <==>
      exists x :: x in c && Waits(x, a) && y == AdvanceDot(x)
  {
    if c != [] {
      var init := c[..|c| - 1];
      AdvancedMembers(init, a);
      assert c == init + [c[|c| - 1]];
    }
  }

  // ---------------------------------------------------------------------
  // The chart invariant: every item is a dotted rule of the grammar whose
  // matched part derives the input between its origin and its cell
  // ---------------------------------------------------------------------

  ghost predicate ItemInv(g: Grammar, w: seq<string>, it: Item, j: nat)
    requires g.Valid()
  {
    it.i <= j <= |w| &&
    Rule(it.lhs, it.bd + it.ad) in g.rules &&
    DerivesSeq(g, it.bd, w[it.i..j])
  }

  ghost predicate CellInv(g: Grammar, w: seq<string>, c: seq<Item>, j: nat)
    requires g.Valid()
  {
    NoDup(c) && forall it :: it in c ==> ItemInv(g, w, it, j)
  }

  ghost predicate ChartInv(g: Grammar, w: seq<string>, cells: seq<seq<Item>>)
    requires g.Valid()
  {
    |cells| == |w| + 1 &&
    forall j :: 0 <= j < |cells| ==> CellInv(g, w, cells[j], j)
  }

  /** Every item that may appear in a cell at position `n` or before. */
  ghost function Universe(rules: seq<Rule>, n: nat): set<Item>
  {
    set o: nat, r: Rule, d: nat | o <= n && r in rules && d <= |r.rhs|
      :: Item(o, r.lhs, r.rhs[..d], r.rhs[d..])
  }

  lemma {:induction false} NoDupCardinality(c: seq<Item>)
    requires NoDup(c)
    ensures |set x | x in c| == |c|
  {
    if c != [] {
      var init := c[..|c| - 1];
      var last := c[|c| - 1];
      assert NoDup(init);
      NoDupCardinality(init);
      assert (set x | x in c) == (set x | x in init) + {last};
      assert last !in (set x | x in init);
    }
  }

  /** A cell of distinct dotted rules with origins at most `n` is no longer
      than the number of such items: this bounds the driver's loops. */
  lemma CellBound(rules: seq<Rule>, c: seq<Item>, n: nat)
    requires NoDup(c)
    requires forall it :: it in c ==> it.i <= n && Rule(it.lhs, it.bd + it.ad) in rules
    ensures |c| <= |Universe(rules, n)|
  {
    var u := Universe(rules, n);
    forall it | it in c ensures it in u {
      var r := Rule(it.lhs, it.bd + it.ad);
      var d := |it.bd|;
      assert r.rhs[..d] == it.bd && r.rhs[d..] == it.ad;
      assert Item(it.i, r.lhs, r.rhs[..d], r.rhs[d..]) == it;
    }
    NoDupCardinality(c);
    assert (set x | x in c) <= u;
    SubsetCardinality((set x | x in c), u);
  }

  lemma SubsetCardinality(a: set<Item>, b: set<Item>)
    requires a <= b
    ensures |a| <= |b|
  {
    assert b == a + (b - a);
  }

  // ---------------------------------------------------------------------
  // Soundness of the inference steps
  // ---------------------------------------------------------------------

  /** A predicted item `[j, a --> . rhs]` is sound at cell `j`. */
  lemma PredSound(g: Grammar, w: seq<string>, r: Rule, j: nat)
    requires g.Valid() && r in g.rules && j <= |w|
    ensures ItemInv(g, w, Item(j, r.lhs, [], r.rhs), j)
  {
    DerivesEmpty(g);
    assert w[j..j] == [];
    assert [] + r.rhs == r.rhs;
  }

  /** Scanning the token `w[j]` moves a sound item of cell `j` to a sound
      item of cell `j + 1`. */
  lemma ScanSound(g: Grammar, w: seq<string>, it: Item, j: nat)
    requires g.Valid() && ItemInv(g, w, it, j)
    requires j < |w| && it.ad != [] && !g.IsNonTerminal(it.ad[0]) && it.ad[0].name == w[j]
    ensures ItemInv(g, w, AdvanceDot(it), j + 1)
  {
    var leaf := Leaf(it.ad[0]);
    DerivesSnoc(g, it.bd, w[it.i..j], leaf);
    assert w[it.i..j] + [w[j]] == w[it.i..j + 1];
  }

  /** Completing: a finished item `[o, a --> bd .]` of cell `j` and an item of
      cell `o` that waits for `a` give a sound item of cell `j`. */
  lemma CompSound(g: Grammar, w: seq<string>, x: Item, it: Item, j: nat)
    requires g.Valid()
    requires ItemInv(g, w, x, it.i) && ItemInv(g, w, it, j)
    requires it.ad == [] && Waits(x, it.lhs)
    ensures ItemInv(g, w, AdvanceDot(x), j)
  {
    assert it.bd + it.ad == it.bd;
    var node := DerivesNode(g, it.lhs, it.bd, w[it.i..j]);
    assert x.ad[0] == it.lhs;
    DerivesSnoc(g, x.bd, w[x.i..it.i], node);
    assert w[x.i..it.i] + w[it.i..j] == w[x.i..j];
  }

  /** Inserting a sound item into a cell keeps the chart invariant. */
  lemma AppendKeepsInv(g: Grammar, w: seq<string>, cells: seq<seq<Item>>, j: nat, y: Item)
    requires g.Valid() && ChartInv(g, w, cells) && j < |cells|
    requires ItemInv(g, w, y, j)
    ensures ChartInv(g, w, cells[j := Appended(cells[j], y)])
  {
    AppendedProperties(cells[j], y);
  }

  /** Replacing one cell by a cell that satisfies the invariant at its
      position keeps the chart invariant. */
  lemma ChartInvUpdate(g: Grammar, w: seq<string>, cells: seq<seq<Item>>, j: nat, c: seq<Item>)
    requires g.Valid() && ChartInv(g, w, cells) && j < |cells|
    requires CellInv(g, w, c, j)
    ensures ChartInv(g, w, cells[j := c])
  {
  }

  lemma AppendAllKeepsInv(g: Grammar, w: seq<string>, cells: seq<seq<Item>>, j: nat, items: seq<Item>)
    requires g.Valid() && ChartInv(g, w, cells) && j < |cells|
    requires forall y :: y in items ==> ItemInv(g, w, y, j)
    ensures ChartInv(g, w, cells[j := AppendAll(cells[j], items)])
  {
    AppendAllProperties(cells[j], items);
  }

  /** Prediction keeps the chart invariant. */
  lemma PredKeepsInv(g: Grammar, w: seq<string>, cells: seq<seq<Item>>, j: nat, a: Symbol)
    requires g.Valid() && ChartInv(g, w, cells) && j < |cells|
    ensures ChartInv(g, w, cells[j := AppendAll(cells[j], ExpansionItems(g.rules, a, j))])
  {
    ExpansionItemsMembers(g.rules, a, j);
    forall y | y in ExpansionItems(g.rules, a, j) ensures ItemInv(g, w, y, j) {
      var r :| r in g.rules && r.lhs == a && y == Item(j, a, [], r.rhs);
      PredSound(g, w, r, j);
    }
    AppendAllKeepsInv(g, w, cells, j, ExpansionItems(g.rules, a, j));
  }

  /** Scanning keeps the chart invariant; it writes only to cell `j + 1`,
      which exists because `j < |w|`. */
  lemma ScanKeepsInv(g: Grammar, w: seq<string>, cells: seq<seq<Item>>, j: nat, it: Item)
    requires g.Valid() && ChartInv(g, w, cells) && j < |w|
    requires it in cells[j] && it.ad != [] && !g.IsNonTerminal(it.ad[0]) && it.ad[0].name == w[j]
    ensures j + 1 < |cells|
    ensures ChartInv(g, w, cells[j + 1 := Appended(cells[j + 1], AdvanceDot(it))])
  {
    assert CellInv(g, w, cells[j], j);
    ScanSound(g, w, it, j);
    AppendKeepsInv(g, w, cells, j + 1, AdvanceDot(it));
  }

  /** An accepting item in the last cell means the word is in the language. */
  lemma AcceptSound(g: Grammar, w: seq<string>, cells: seq<seq<Item>>, it: Item)
    requires g.Valid() && ChartInv(g, w, cells)
    requires it in cells[|w|] && it.i == 0 && it.ad == [] && it.lhs.name == g.axiom.name
    ensures Derives(g, w)
  {
    assert CellInv(g, w, cells[|w|], |w|);
    assert it.bd + it.ad == it.bd;
    assert w[0..|w|] == w;
    var t := DerivesNode(g, it.lhs, it.bd, w);
    assert it.lhs == g.axiom;
  }

  // ---------------------------------------------------------------------
  // Closure: the inference step that applies to an item has been applied
  // ---------------------------------------------------------------------

  /** The step chosen by the driver for item number `k` of cell `j` has had
      its effect. A completed item whose origin is its own cell is only
      guaranteed to have advanced the items placed before it there. */
  ghost predicate Processed(g: Grammar, w: seq<string>, cells: seq<seq<Item>>, j: nat, k: nat)
    requires g.Valid() && j < |cells| && k < |cells[j]|
  {
    var it := cells[j][k];
    if it.ad == [] then
      it.i <= j &&
      forall m :: 0 <= m < |cells[it.i]| && (it.i < j || m <= k) && Waits(cells[it.i][m], it.lhs) ==>
        AdvanceDot(cells[it.i][m]) in cells[j]
    else if g.IsNonTerminal(it.ad[0]) then
      forall r :: r in g.rules && r.lhs == it.ad[0] ==> Item(j, it.ad[0], [], r.rhs) in cells[j]
    else if j < |w| && it.ad[0].name == w[j] then
      j + 1 < |cells| && AdvanceDot(it) in cells[j + 1]
    else
      true
  }

  /** Every item of every cell has been processed: the chart is closed. */
  ghost predicate Closed(g: Grammar, w: seq<string>, cells: seq<seq<Item>>)
    requires g.Valid()
  {
    forall j, k :: 0 <= j < |cells| && 0 <= k < |cells[j]| ==> Processed(g, w, cells, j, k)
  }

  /** Growing cells `j` and later keeps an item of cells `0..j` processed. */
  lemma ProcessedStable(g: Grammar, w: seq<string>, cells: seq<seq<Item>>, cells': seq<seq<Item>>,
                        j: nat, j': nat, k': nat)
    requires g.Valid() && |cells'| == |cells| && j < |cells|
    requires forall a :: 0 <= a < |cells| ==> cells[a] <= cells'[a]
    requires forall a :: 0 <= a < j ==> cells'[a] == cells[a]
    requires j' <= j && k' < |cells[j']| && Processed(g, w, cells, j', k')
    ensures k' < |cells'[j']| && Processed(g, w, cells', j', k')
  {
    var it := cells[j'][k'];
    assert cells'[j'][k'] == it;
    if it.ad == [] {
      forall m | 0 <= m < |cells'[it.i]| && (it.i < j' || m <= k') && Waits(cells'[it.i][m], it.lhs)
        ensures AdvanceDot(cells'[it.i][m]) in cells'[j']
      {
        assert m < |cells[it.i]| && cells'[it.i][m] == cells[it.i][m];
        assert AdvanceDot(cells[it.i][m]) in cells[j'];
      }
    }
  }

  /** Cells before `j` are unchanged and every cell only grew. */
  ghost predicate Grows(cells: seq<seq<Item>>, cells': seq<seq<Item>>, j: nat)
  {
    |cells'| == |cells| &&
    (forall a :: 0 <= a < |cells| ==> cells[a] <= cells'[a]) &&
    (forall a :: 0 <= a < j && a < |cells| ==> cells'[a] == cells[a])
  }

  /** Cell 0 still begins with the items it was initialised with, in order. */
  ghost predicate Seeded(g: Grammar, w: seq<string>, cells: seq<seq<Item>>)
  {
    |cells| > 0 && InitialChart(g, w)[0] <= cells[0]
  }

  /** Every item of cells `0 .. j - 1` is processed. */
  ghost predicate CellsDone(g: Grammar, w: seq<string>, cells: seq<seq<Item>>, j: nat)
    requires g.Valid()
  {
    j <= |cells| &&
    forall j', k' :: 0 <= j' < j && 0 <= k' < |cells[j']| ==> Processed(g, w, cells, j', k')
  }

  /** The first `k` items of cell `j` are processed. */
  ghost predicate CellDone(g: Grammar, w: seq<string>, cells: seq<seq<Item>>, j: nat, k: nat)
    requires g.Valid()
  {
    j < |cells| && k <= |cells[j]| &&
    forall k' :: 0 <= k' < k ==> Processed(g, w, cells, j, k')
  }

  /** The driver's invariant between two cells: cells `0 .. j - 1` are done. */
  ghost predicate Done(g: Grammar, w: seq<string>, cells: seq<seq<Item>>, j: nat)
    requires g.Valid()
  {
    ChartInv(g, w, cells) && Seeded(g, w, cells) && CellsDone(g, w, cells, j)
  }

  /** The driver's invariant inside cell `j`: its first `k` items are done. */
  ghost predicate DriverInv(g: Grammar, w: seq<string>, cells: seq<seq<Item>>, j: nat, k: nat)
    requires g.Valid()
  {
    Done(g, w, cells, j) && CellDone(g, w, cells, j, k)
  }

  /** Growing cell 0 keeps its seed prefix. */
  lemma SeededGrows(g: Grammar, w: seq<string>, cells: seq<seq<Item>>, cells': seq<seq<Item>>)
    requires Seeded(g, w, cells) && |cells'| == |cells| && cells[0] <= cells'[0]
    ensures Seeded(g, w, cells')
  {
    var seed := InitialChart(g, w)[0];
    assert cells[0][..|seed|] == seed;
    assert cells'[0][..|seed|] == cells'[0][..|cells[0]|][..|seed|];
  }

  /** Growing cells `j` and later keeps cells `0 .. j - 1` processed. */
  lemma CellsDoneGrows(g: Grammar, w: seq<string>, cells: seq<seq<Item>>, cells': seq<seq<Item>>, j: nat)
    requires g.Valid() && CellsDone(g, w, cells, j) && j < |cells| && Grows(cells, cells', j)
    ensures CellsDone(g, w, cells', j)
  {
    forall j', k' | 0 <= j' < j && 0 <= k' < |cells'[j']|
      ensures Processed(g, w, cells', j', k')
    {
      assert cells'[j'] == cells[j'];
      ProcessedStable(g, w, cells, cells', j, j', k');
    }
  }

  /** Growing cells `j` and later, with item `k` of cell `j` processed
      afterwards, leaves the first `k + 1` items of cell `j` processed. */
  lemma CellDoneGrows(g: Grammar, w: seq<string>, cells: seq<seq<Item>>, cells': seq<seq<Item>>, j: nat, k: nat)
    requires g.Valid() && CellDone(g, w, cells, j, k) && k < |cells[j]| && Grows(cells, cells', j)
    requires Processed(g, w, cells', j, k)
    ensures CellDone(g, w, cells', j, k + 1)
  {
    forall k' | 0 <= k' < k + 1 ensures Processed(g, w, cells', j, k') {
      if k' < k {
        ProcessedStable(g, w, cells, cells', j, j, k');
      }
    }
  }

  /** After one inference step that only grew cells `j` and later and
      processed item `k` of cell `j`, the driver may move to item `k + 1`. */
  lemma DriverAdvance(g: Grammar, w: seq<string>, cells: seq<seq<Item>>, cells': seq<seq<Item>>, j: nat, k: nat)
    requires g.Valid() && DriverInv(g, w, cells, j, k) && k < |cells[j]|
    requires Grows(cells, cells', j) && ChartInv(g, w, cells')
    requires Processed(g, w, cells', j, k)
    ensures DriverInv(g, w, cells', j, k + 1)
  {
    SeededGrows(g, w, cells, cells');
    CellsDoneGrows(g, w, cells, cells', j);
    CellDoneGrows(g, w, cells, cells', j, k);
  }

  lemma PredStep(g: Grammar, w: seq<string>, cells: seq<seq<Item>>, j: nat, k: nat)
    requires g.Valid() && DriverInv(g, w, cells, j, k) && k < |cells[j]|
    requires cells[j][k].ad != [] && g.IsNonTerminal(cells[j][k].ad[0])
    ensures DriverInv(g, w, cells[j := AppendAll(cells[j], ExpansionItems(g.rules, cells[j][k].ad[0], j))], j, k + 1)
  {
    var a := cells[j][k].ad[0];
    var cells' := cells[j := AppendAll(cells[j], ExpansionItems(g.rules, a, j))];
    PredKeepsInv(g, w, cells, j, a);
    PredProcessed(g, w, cells, j, k);
    AppendAllProperties(cells[j], ExpansionItems(g.rules, a, j));
    DriverAdvance(g, w, cells, cells', j, k);
  }

  /** After prediction, the predicting item counts as processed. */
  lemma PredProcessed(g: Grammar, w: seq<string>, cells: seq<seq<Item>>, j: nat, k: nat)
    requires g.Valid() && j < |cells| && k < |cells[j]|
    requires cells[j][k].ad != [] && g.IsNonTerminal(cells[j][k].ad[0])
    ensures cells[j] <= AppendAll(cells[j], ExpansionItems(g.rules, cells[j][k].ad[0], j))
    ensures Processed(g, w, cells[j := AppendAll(cells[j], ExpansionItems(g.rules, cells[j][k].ad[0], j))], j, k)
  {
    var a := cells[j][k].ad[0];
    var cells' := cells[j := AppendAll(cells[j], ExpansionItems(g.rules, a, j))];
    AppendAllProperties(cells[j], ExpansionItems(g.rules, a, j));
    ExpansionItemsMembers(g.rules, a, j);
    assert cells'[j][k] == cells[j][k];
  }

  lemma ScanStep(g: Grammar, w: seq<string>, cells: seq<seq<Item>>, j: nat, k: nat)
    requires g.Valid() && DriverInv(g, w, cells, j, k) && k < |cells[j]| && j < |w|
    requires cells[j][k].ad != [] && !g.IsNonTerminal(cells[j][k].ad[0])
    requires cells[j][k].ad[0].name == w[j]
    ensures DriverInv(g, w, cells[j + 1 := Appended(cells[j + 1], AdvanceDot(cells[j][k]))], j, k + 1)
  {
    var it := cells[j][k];
    var cells' := cells[j + 1 := Appended(cells[j + 1], AdvanceDot(it))];
    ScanKeepsInv(g, w, cells, j, it);
    AppendedProperties(cells[j + 1], AdvanceDot(it));
    assert cells'[j][k] == it;
    assert Processed(g, w, cells', j, k);
    DriverAdvance(g, w, cells, cells', j, k);
  }

  lemma CompStep(g: Grammar, w: seq<string>, cells: seq<seq<Item>>, c: seq<Item>, j: nat, k: nat)
    requires g.Valid() && DriverInv(g, w, cells, j, k) && k < |cells[j]|
    requires cells[j][k].ad == [] && cells[j][k].i <= j && cells[j] <= c
    requires ChartInv(g, w, cells[j := c])
    requires Covered(cells[j][k].lhs, cells[j := c][cells[j][k].i], c, |cells[j := c][cells[j][k].i]|)
    ensures DriverInv(g, w, cells[j := c], j, k + 1)
  {
    var it := cells[j][k];
    var cells' := cells[j := c];
    assert cells'[j][k] == it;
    assert Processed(g, w, cells', j, k);
    DriverAdvance(g, w, cells, cells', j, k);
  }

  /** An item whose next symbol is a terminal that cannot be scanned here. */
  lemma SkipStep(g: Grammar, w: seq<string>, cells: seq<seq<Item>>, j: nat, k: nat)
    requires g.Valid() && DriverInv(g, w, cells, j, k) && k < |cells[j]|
    requires cells[j][k].ad != [] && !g.IsNonTerminal(cells[j][k].ad[0])
    requires !(j < |w| && cells[j][k].ad[0].name == w[j])
    ensures DriverInv(g, w, cells, j, k + 1)
  {
    assert Processed(g, w, cells, j, k);
    DriverAdvance(g, w, cells, cells, j, k);
  }

  /** A finished cell lets the driver move to the next one. */
  lemma NextCell(g: Grammar, w: seq<string>, cells: seq<seq<Item>>, j: nat)
    requires g.Valid() && j < |cells| && DriverInv(g, w, cells, j, |cells[j]|)
    ensures Done(g, w, cells, j + 1)
  {
    forall j', k' | 0 <= j' < j + 1 && 0 <= k' < |cells[j']|
      ensures Processed(g, w, cells, j', k')
    {
    }
  }

  /** The driver's start: nothing is processed yet. */
  lemma DriverStart(g: Grammar, w: seq<string>)
    requires g.Valid()
    ensures Done(g, w, InitialChart(g, w), 0)
  {
    InitialChartProperties(g, w);
  }

  /** Every cell done means the chart is closed. */
  lemma DoneClosed(g: Grammar, w: seq<string>, cells: seq<seq<Item>>)
    requires g.Valid() && Done(g, w, cells, |cells|)
    ensures Closed(g, w, cells)
  {
  }

  lemma ClosedPredict(g: Grammar, w: seq<string>, cells: seq<seq<Item>>, j: nat, it: Item, r: Rule)
    requires g.Valid() && Closed(g, w, cells) && j < |cells|
    requires it in cells[j] && it.ad != [] && g.IsNonTerminal(it.ad[0])
    requires r in g.rules && r.lhs == it.ad[0]
    ensures Item(j, r.lhs, [], r.rhs) in cells[j]
  {
    var k :| 0 <= k < |cells[j]| && cells[j][k] == it;
    assert Processed(g, w, cells, j, k);
  }

  lemma ClosedScan(g: Grammar, w: seq<string>, cells: seq<seq<Item>>, j: nat, it: Item)
    requires g.Valid() && Closed(g, w, cells) && j < |w| && j < |cells|
    requires it in cells[j] && it.ad != [] && !g.IsNonTerminal(it.ad[0]) && it.ad[0].name == w[j]
    ensures j + 1 < |cells| && AdvanceDot(it) in cells[j + 1]
  {
    var k :| 0 <= k < |cells[j]| && cells[j][k] == it;
    assert Processed(g, w, cells, j, k);
  }

  /** In a closed chart, a finished item whose origin is its own cell has
      advanced every waiting item placed before it in that cell. */
  lemma ClosedCompleteSameCell(g: Grammar, w: seq<string>, cells: seq<seq<Item>>, j: nat, k: nat, m: nat)
    requires g.Valid() && Closed(g, w, cells) && j < |cells|
    requires m <= k < |cells[j]| && cells[j][k].ad == [] && cells[j][k].i == j
    requires Waits(cells[j][m], cells[j][k].lhs)
    ensures AdvanceDot(cells[j][m]) in cells[j]
  {
    assert Processed(g, w, cells, j, k);
  }

  lemma ClosedComplete(g: Grammar, w: seq<string>, cells: seq<seq<Item>>, j: nat, it: Item, x: Item)
    requires g.Valid() && Closed(g, w, cells) && j < |cells|
    requires it in cells[j] && it.ad == [] && it.i < j
    requires x in cells[it.i] && Waits(x, it.lhs)
    ensures AdvanceDot(x) in cells[j]
  {
    var k :| 0 <= k < |cells[j]| && cells[j][k] == it;
    assert Processed(g, w, cells, j, k);
    var m :| 0 <= m < |cells[it.i]| && cells[it.i][m] == x;
  }

  // ---------------------------------------------------------------------
  // The engine
  // ---------------------------------------------------------------------

  /** The chart right after initialisation. */
  ghost function InitialChart(g: Grammar, w: seq<string>): seq<seq<Item>>
  {
    seq(|w| + 1, a => if a == 0 then AppendAll([], ExpansionItems(g.rules, g.axiom, 0)) else [])
  }

  /** Cell 0 starts with one item `[0, S --> . rhs]` per distinct rule of the
      axiom `S`; every other cell starts empty. */
  lemma InitialChartProperties(g: Grammar, w: seq<string>)
    requires g.Valid()
    ensures ChartInv(g, w, InitialChart(g, w))
    ensures forall x :: x in InitialChart(g, w)[0] <==>
      exists r :: r in g.rules && r.lhs == g.axiom && x == Item(0, g.axiom, [], r.rhs)
    ensures forall a :: 0 < a <= |w| ==> InitialChart(g, w)[a] == []
  {
    var cells := InitialChart(g, w);
    var empty: seq<seq<Item>> := seq(|w| + 1, a => []);
    assert ChartInv(g, w, empty) by {
      forall a | 0 <= a < |empty| ensures CellInv(g, w, empty[a], a) {
      }
    }
    PredKeepsInv(g, w, empty, 0, g.axiom);
    assert cells == empty[0 := AppendAll([], ExpansionItems(g.rules, g.axiom, 0))];
    AppendAllProperties([], ExpansionItems(g.rules, g.axiom, 0));
    ExpansionItemsMembers(g.rules, g.axiom, 0);
  }

  /** Allocates `|w| + 1` fresh cells and seeds cell 0 with the axiom's rules. */
  method Init(g: Grammar, w: seq<string>) returns (T: seq<TableCell>)
    ensures |T| == |w| + 1 && Distinct(T)
    ensures forall a :: 0 <= a < |T| ==> fresh(T[a])
    ensures Snapshot(T) == InitialChart(g, w)
  {
    T := [];
    for a := 0 to |w| + 1
      invariant |T| == a && Distinct(T)
      invariant forall b :: 0 <= b < a ==> fresh(T[b]) && T[b].c == []
    {
      var cell := new TableCell();
      T := T + [cell];
    }
    for q := 0 to |g.rules|
      invariant T[0].c == AppendAll([], ExpansionItems(g.rules[..q], g.axiom, 0))
      invariant forall b :: 0 < b < |T| ==> T[b].c == []
    {
      var rule := g.rules[q];
      ExpansionItemsSnoc([], g.rules, q, g.axiom, 0);
      if rule.lhs.name == g.axiom.name {
        var axiomState := Item(0, g.axiom, [], rule.rhs);
        T[0].CAppend(axiomState);
      }
    }
    assert g.rules[..|g.rules|] == g.rules;
  }

  /** Prediction: for a non-terminal `a` after the dot, inserts into cell `j`
      the item `[j, a --> . rhs]` for every rule `a --> rhs`. */
  method Pred(g: Grammar, it: Item, T: seq<TableCell>, j: nat)
    requires g.Valid() && Distinct(T) && j < |T| && it.ad != []
    modifies T[j]
    ensures Snapshot(T) == old(Snapshot(T))[j := T[j].c]
    ensures T[j].c == AppendAll(old(T[j].c),
      if g.IsNonTerminal(it.ad[0]) then ExpansionItems(g.rules, it.ad[0], j) else [])
  {
    var firstAfterDot := it.ad[0];
    if g.IsNonTerminal(firstAfterDot) {
      for q := 0 to |g.rules|
        invariant T[j].c == AppendAll(old(T[j].c), ExpansionItems(g.rules[..q], firstAfterDot, j))
        invariant Snapshot(T) == old(Snapshot(T))[j := T[j].c]
      {
        var rule := g.rules[q];
        ExpansionItemsSnoc(old(T[j].c), g.rules, q, firstAfterDot, j);
        if rule.lhs.name == firstAfterDot.name {
          var expansion := Item(j, firstAfterDot, [], rule.rhs);
          T[j].CAppend(expansion);
        }
      }
      assert g.rules[..|g.rules|] == g.rules;
    }
  }

  /** Scanning: inserts the item with its dot moved over the matched token
      into the next cell, `j + 1`, and nowhere else. */
  method Scan(it: Item, T: seq<TableCell>, j: nat)
    requires Distinct(T) && j + 1 < |T| && it.ad != []
    modifies T[j + 1]
    ensures Snapshot(T) == old(Snapshot(T))[j + 1 := Appended(old(T[j + 1].c), AdvanceDot(it))]
  {
    var newItem := AdvanceDot(it);
    T[j + 1].CAppend(newItem);
  }

  /** Each of the first `k` items of `origin` that waits for `a` has been
      advanced into `cell`. */
  ghost predicate Covered(a: Symbol, origin: seq<Item>, cell: seq<Item>, k: nat)
  {
    k <= |origin| &&
    forall m :: 0 <= m < k && Waits(origin[m], a) ==> AdvanceDot(origin[m]) in cell
  }

  /** Everything `cell` holds beyond `cell0` is an item of `origin` that
      waited for `a`, advanced. */
  ghost predicate OnlyAdvances(a: Symbol, cell0: seq<Item>, origin: seq<Item>, cell: seq<Item>)
  {
    forall y :: y in cell ==> y in cell0 || exists x :: x in origin && Waits(x, a) && y == AdvanceDot(x)
  }

  lemma CoveredStep(a: Symbol, origin: seq<Item>, origin': seq<Item>, cell: seq<Item>, cell': seq<Item>, k: nat)
    requires Covered(a, origin, cell, k) && k < |origin|
    requires origin <= origin' && cell <= cell'
    requires Waits(origin[k], a) ==> AdvanceDot(origin[k]) in cell'
    ensures Covered(a, origin', cell', k + 1)
  {
    forall m | 0 <= m < k + 1 && Waits(origin'[m], a)
      ensures AdvanceDot(origin'[m]) in cell'
    {
      assert origin'[m] == origin[m];
    }
  }

  lemma OnlyAdvancesStep(a: Symbol, cell0: seq<Item>, origin: seq<Item>, origin': seq<Item>,
                         cell: seq<Item>, k: nat)
    requires OnlyAdvances(a, cell0, origin, cell) && k < |origin| && origin <= origin'
    ensures Waits(origin[k], a) ==>
      OnlyAdvances(a, cell0, origin', Appended(cell, AdvanceDot(origin[k])))
    ensures OnlyAdvances(a, cell0, origin', cell)
  {
    forall z | z in origin ensures z in origin' {
      var p :| 0 <= p < |origin| && origin[p] == z;
      assert origin'[p] == z;
    }
    assert origin[k] in origin';
  }

  /** What the loop of `Comp` keeps after visiting the first `k` items of the
      origin cell `origin` (at position `o`), while cell `j` went from `cell0`
      to `cell`. */
  ghost predicate CompLoopInv(g: Grammar, w: seq<string>, it: Item, j: nat, o: nat,
                              cell0: seq<Item>, origin: seq<Item>, cell: seq<Item>, k: nat)
    requires g.Valid()
  {
    cell0 <= cell &&
    CellInv(g, w, cell, j) && CellInv(g, w, origin, o) &&
    (o == j ==> origin == cell) &&
    Covered(it.lhs, origin, cell, k) &&
    OnlyAdvances(it.lhs, cell0, origin, cell) &&
    (o < j ==> cell == AppendAll(cell0, Advanced(origin[..k], it.lhs)))
  }

  /** Visiting item `k` of the origin cell keeps the loop invariant of `Comp`. */
  lemma CompLoopStep(g: Grammar, w: seq<string>, it: Item, j: nat, o: nat,
                     cell0: seq<Item>, origin: seq<Item>, cell: seq<Item>, k: nat)
    requires g.Valid() && it.i == o && it.ad == [] && ItemInv(g, w, it, j)
    requires CompLoopInv(g, w, it, j, o, cell0, origin, cell, k) && k < |origin|
    ensures var cell' := if Waits(origin[k], it.lhs) then Appended(cell, AdvanceDot(origin[k])) else cell;
      CompLoopInv(g, w, it, j, o, cell0, if o == j then cell' else origin, cell', k + 1)
  {
    var x := origin[k];
    var cell' := if Waits(x, it.lhs) then Appended(cell, AdvanceDot(x)) else cell;
    var origin' := if o == j then cell' else origin;
    if Waits(x, it.lhs) {
      AppendedProperties(cell, AdvanceDot(x));
      CompSound(g, w, x, it, j);
    }
    assert CellInv(g, w, cell', j);
    assert origin <= origin';
    CoveredStep(it.lhs, origin, origin', cell, cell', k);
    OnlyAdvancesStep(it.lhs, cell0, origin, origin', cell, k);
    AdvancedSnoc(cell0, origin, k, it.lhs);
  }

  /** Completion: for the finished item `it` of cell `j`, advances into cell
      `j` every item of the origin cell `T[it.i]` that waits for `it.lhs`.
      The loop re-reads the length of the origin cell, so when that cell is
      cell `j` itself, items inserted by this very call are visited too. */
  method Comp(it: Item, T: seq<TableCell>, j: nat, ghost g: Grammar, ghost w: seq<string>)
    requires g.Valid() && Distinct(T) && j < |T|
    requires ChartInv(g, w, Snapshot(T))
    requires it in T[j].c && it.ad == []
    modifies T[j]
    ensures it.i <= j
    ensures Snapshot(T) == old(Snapshot(T))[j := T[j].c]
    ensures old(T[j].c) <= T[j].c
    ensures ChartInv(g, w, Snapshot(T))
    ensures Covered(it.lhs, T[it.i].c, T[j].c, |T[it.i].c|)
    ensures OnlyAdvances(it.lhs, old(T[j].c), T[it.i].c, T[j].c)
    ensures it.i < j ==> T[j].c == AppendAll(old(T[j].c), Advanced(T[it.i].c, it.lhs))
  {
    assert CellInv(g, w, T[j].c, j);
    var k := 0;
    var originIdx := it.i;
    assert CellInv(g, w, T[originIdx].c, originIdx);
    assert CompLoopInv(g, w, it, j, originIdx, T[j].c, T[originIdx].c, T[j].c, 0);
    while k < T[originIdx].Len()
      invariant k <= |T[originIdx].c|
      invariant originIdx < j ==> T[originIdx].c == old(T[originIdx].c)
      invariant CompLoopInv(g, w, it, j, originIdx, old(T[j].c), T[originIdx].c, T[j].c, k)
      decreases |Universe(g.rules, j)| - k
    {
      CellBound(g.rules, T[originIdx].c, j);
      ghost var origin, cell := T[originIdx].c, T[j].c;
      ghost var cell' := if Waits(origin[k], it.lhs) then Appended(cell, AdvanceDot(origin[k])) else cell;
      ghost var origin' := if originIdx == j then cell' else origin;
      CompLoopStep(g, w, it, j, originIdx, old(T[j].c), origin, cell, k);
      var sampleItem := T[it.i].At(k);
      if sampleItem.ad != [] {
        var firstAfterDot := sampleItem.ad[0].name;
        var leftHandSide := it.lhs.name;
        if firstAfterDot == leftHandSide {
          var newItem := AdvanceDot(sampleItem);
          T[j].CAppend(newItem);
        }
      }
      assert T[j].c == cell';
      assert originIdx != j ==> T[originIdx] != T[j];
      assert T[originIdx].c == origin';
      k := k + 1;
    }
    assert T[originIdx].c[..k] == T[originIdx].c;
    forall a | 0 <= a < |T| && a != j
      ensures T[a].c == old(T[a].c)
    {
      assert T[a] != T[j];
    }
    ChartInvUpdate(g, w, old(Snapshot(T)), j, T[j].c);
  }

  /** The table is complete when its last cell holds a finished item of the
      axiom that began at position 0. */
  method TableComplete(g: Grammar, w: seq<string>, T: seq<TableCell>) returns (ok: bool)
    requires |T| == |w| + 1
    ensures ok <==> exists it :: it in T[|w|].c && it.i == 0 && it.ad == [] && it.lhs.name == g.axiom.name
  {
    var axiom := g.axiom.name;
    var lastCell := |w|;
    for k := 0 to T[lastCell].Len()
      invariant forall m :: 0 <= m < k ==>
        !(T[lastCell].c[m].i == 0 && T[lastCell].c[m].ad == [] && T[lastCell].c[m].lhs.name == axiom)
    {
      var item := T[lastCell].At(k);
      if item.i == 0 && item.ad == [] && item.lhs.name == axiom {
        return true;
      }
    }
    return false;
  }

  /** Builds the chart for `w`: for each position in turn, processes the
      items of that cell, including those inserted while it is processed, by
      completion, prediction or scanning. `accepted` is the verdict of the
      acceptance test on the finished table. */
  method ParseEarley(g: Grammar, w: seq<string>) returns (T: seq<TableCell>, accepted: bool)
    requires g.Valid()
    ensures |T| == |w| + 1 && Distinct(T)
    ensures forall a :: 0 <= a < |T| ==> fresh(T[a])
    ensures ChartInv(g, w, Snapshot(T))
    ensures Closed(g, w, Snapshot(T))
    ensures Seeded(g, w, Snapshot(T))
    ensures accepted <==> exists it :: it in T[|w|].c && it.i == 0 && it.ad == [] && it.lhs.name == g.axiom.name
    ensures accepted ==> Derives(g, w)
  {
    T := Init(g, w);
    DriverStart(g, w);
    for j := 0 to |w| + 1
      invariant forall a :: 0 <= a < |T| ==> fresh(T[a])
      invariant Done(g, w, Snapshot(T), j)
    {
      var k := 0;
      while k < T[j].Len()
        invariant forall a :: 0 <= a < |T| ==> fresh(T[a])
        invariant DriverInv(g, w, Snapshot(T), j, k)
        decreases |Universe(g.rules, j)| - k
      {
        ghost var before := Snapshot(T);
        assert CellInv(g, w, before[j], j);
        CellBound(g.rules, before[j], j);
        var probedItem := T[j].At(k);
        assert probedItem == before[j][k];
        if probedItem.ad == [] {
          Comp(probedItem, T, j, g, w);
          CompStep(g, w, before, T[j].c, j, k);
        } else if g.IsNonTerminal(probedItem.ad[0]) {
          Pred(g, probedItem, T, j);
          PredStep(g, w, before, j, k);
        } else if j < |w| {
          if probedItem.ad[0].name == w[j] {
            Scan(probedItem, T, j);
            ScanStep(g, w, before, j, k);
          } else {
            SkipStep(g, w, before, j, k);
          }
        } else {
          SkipStep(g, w, before, j, k);
        }
        k := k + 1;
      }
      NextCell(g, w, Snapshot(T), j);
    }
    DoneClosed(g, w, Snapshot(T));
    accepted := TableComplete(g, w, T);
    if accepted {
      ghost var it :| it in T[|w|].c && it.i == 0 && it.ad == [] && it.lhs.name == g.axiom.name;
      AcceptSound(g, w, Snapshot(T), it);
    }
  }
}
