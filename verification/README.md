# Earley recognizer — a verified Dafny model

This project models the Earley recognizer of the Earley-Parser repository:
- the grammar classes (`Symbol`, `Rule`, `Grammar`);
- the chart classes (`Item`, `TableCell`);
- the engine in `earlyParser.py`: `advance_dot`, `init`, `pred`, `scan`, `comp`, `table_complete` and the driver `parse_earley`.

The model keeps the source's form. A `TableCell` is a class whose list `c` grows through `CAppend`, which inserts an item only if it is absent. The table is a sequence of `|w| + 1` distinct cells. `Init`, `Pred`, `Scan`, `Comp` and `ParseEarley` are methods that append into those cells in place, in the same order and with the same tests as the source. The two loops that read a cell while it grows are kept: the driver's loop over cell `j`, and `Comp`'s loop over the origin cell.

Each method is proved against value-level specification functions. These work on `Snapshot(T)`, the contents of all cells:
- `Appended` and `AppendAll` describe insertion;
- `ExpansionItems` gives the items prediction produces;
- `Advanced` gives the items completion produces;
- `InitialChart` gives the chart after initialisation.

What is proved about the finished chart:
- **Soundness (`ChartInv`).** Every item `[i, A --> bd . ad]` in cell `j` satisfies:
  - `i <= j <= |w|`;
  - `A --> bd ad` is a rule of the grammar;
  - `bd` derives the tokens `w[i..j]`, as shown by parse trees (module `Derivation`);
  - no cell holds an item twice.

  So an accepting chart means the word is in the language (`ParseEarley`, `AcceptSound`).
- **Closure (`Closed`).** For every item of every cell, the step the driver chooses for it has had its effect:
  - completion has advanced every waiting item of an earlier origin cell and, when the origin is the item's own cell, every waiting item placed before it;
  - prediction has inserted every expansion;
  - a scan has inserted the advanced item into the next cell.

  Cell 0 also still begins with the seed items of `init` (`Seeded`), because cells only grow at their end.

  This is what lets one follow a concrete derivation through the chart. The demo grammar accepts the sentence "book that flight" (`Example.BookThatFlight`). It rejects the empty word (`Example.EmptyWordRejected`) and the word "flight" (`Example.FlightRejected`). A grammar with the single rule A → ε accepts the empty word (`Example.EpsilonAccepted`). So does the chain S → A, A → ε, where the completion happens in the same cell (`Example.NullableChainAccepted`).
- **Termination.** Both growing-cell loops terminate, because a cell holds distinct items drawn from the finite set `Universe` of dotted rules with bounded origins (`CellBound`).

## Model

| member | source | states |
|---|---|---|
| CFG.CollectNonTerminals | Earley_Parser/EarlyParser/CFGParsingClasses.py:52-54 | the collected set holds exactly the left-hand sides of the rules |
| CFG.Grammar.constructor | Earley_Parser/EarlyParser/CFGParsingClasses.py:41-54 | stores the four arguments; `nonTerminals` is the set of rule left-hand sides (`Valid`) |
| CFG.Grammar.IsNonTerminal | Earley_Parser/EarlyParser/CFGParsingClasses.py:75-78 | true iff some rule rewrites the symbol |
| CFG.Grammar.CreateNewSymbol | Earley_Parser/EarlyParser/CFGParsingClasses.py:57-73 | result name is unused; it is the proposed name followed by quotes, and every shorter primed form is in use (fewest quotes); an unused proposal comes back unchanged; grammar unchanged (const fields); loop terminates |
| Chart.Item.Equals | Earley_Parser/EarlyParser/CFGParsingClasses.py:104-106 | true iff origin, lhs, `bd` and `ad` all agree, i.e. structural equality |
| Chart.TableCell.constructor | Earley_Parser/EarlyParser/CFGParsingClasses.py:115-116 | a new cell is empty |
| Chart.TableCell.Len | Earley_Parser/EarlyParser/CFGParsingClasses.py:119-120 | the number of items in the cell |
| Chart.TableCell.At | Earley_Parser/EarlyParser/CFGParsingClasses.py:123-124 | the item returned is the one stored at that index of the cell's list |
| Chart.TableCell.CAppend | Earley_Parser/EarlyParser/CFGParsingClasses.py:128-136 | the cell is unchanged if the item was present, and is the old list plus the item otherwise |
| Chart.AppendedProperties | Earley_Parser/EarlyParser/CFGParsingClasses.py:134-135 | insertion keeps old entries in place, contains exactly the old items plus the new one, and keeps the cell duplicate-free |
| Chart.AppendedIdempotent | Earley_Parser/EarlyParser/CFGParsingClasses.py:134-135 | inserting the same item twice equals inserting it once |
| Chart.AppendAllProperties | Earley_Parser/EarlyParser/CFGParsingClasses.py:134-135 | a series of insertions extends the cell, holds exactly old items plus inserted ones, and keeps it duplicate-free |
| Chart.AppendAllPresent | Earley_Parser/EarlyParser/CFGParsingClasses.py:134-135 | inserting items that are all present leaves the cell unchanged (re-prediction is a no-op) |
| Earley.AdvanceDot | Earley_Parser/EarlyParser/earlyParser.py:5-23 | keeps origin and lhs, moves one symbol across the dot: `bd + ad` is unchanged, `bd` grows by one and `ad` shrinks by one |
| Earley.ExpansionItemsMembers | Earley_Parser/EarlyParser/earlyParser.py:63-71 | prediction for `a` at `j` yields exactly the items `[j, a --> . rhs]` for rules `a --> rhs` |
| Earley.AdvancedMembers | Earley_Parser/EarlyParser/earlyParser.py:97-123 | completion yields exactly the advanced forms of origin items whose next symbol is named like the finished lhs |
| Earley.InitialChartProperties | Earley_Parser/EarlyParser/earlyParser.py:33-46 | the initial chart satisfies the chart invariant; cell 0 holds exactly one `[0, S --> . rhs]` per rule of the axiom; other cells are empty |
| Earley.Init | Earley_Parser/EarlyParser/earlyParser.py:26-46 | allocates `len(w) + 1` fresh distinct cells whose contents are the initial chart |
| Earley.Pred | Earley_Parser/EarlyParser/earlyParser.py:49-71 | only cell `j` changes; it becomes the old cell with the expansion items inserted when the next symbol is a non-terminal, and stays unchanged otherwise |
| Earley.Scan | Earley_Parser/EarlyParser/earlyParser.py:74-85 | only cell `j + 1` changes, by inserting the advanced item; the caller must have `j + 1` in range, so nothing is written past cell `len(w)` |
| Earley.Comp | Earley_Parser/EarlyParser/earlyParser.py:88-125 | only cell `j` changes and only grows; the chart invariant is kept; every waiting item of the final origin cell is advanced into cell `j`, including items appended during the call; nothing else is added; for an earlier origin the new cell is exactly the insertion of the advanced items |
| Earley.CompLoopStep | Earley_Parser/EarlyParser/earlyParser.py:97-125 | one iteration of the completion loop keeps its invariant (soundness, coverage of visited items, nothing but advances added) |
| Earley.PredSound | Earley_Parser/EarlyParser/earlyParser.py:65-71 | a predicted item is sound: its empty `bd` derives the empty span |
| Earley.ScanSound | Earley_Parser/EarlyParser/earlyParser.py:176-179 | scanning a terminal equal to `w[j]` gives a sound item of cell `j + 1` |
| Earley.CompSound | Earley_Parser/EarlyParser/earlyParser.py:114-123 | combining a finished item with a waiting item of its origin cell gives a sound item of cell `j` |
| Earley.PredKeepsInv | Earley_Parser/EarlyParser/earlyParser.py:63-71 | prediction keeps the chart invariant |
| Earley.ScanKeepsInv | Earley_Parser/EarlyParser/earlyParser.py:176-179 | scanning keeps the chart invariant and writes to an existing cell |
| Earley.AcceptSound | Earley_Parser/EarlyParser/earlyParser.py:139-148 | an accepting item in the last cell of a sound chart means the grammar derives the word |
| Earley.CellBound | Earley_Parser/EarlyParser/earlyParser.py:164 | a duplicate-free sound cell has at most as many items as `Universe` has, which bounds the growing-cell loops |
| Earley.ProcessedStable | Earley_Parser/EarlyParser/earlyParser.py:162-181 | growing later cells keeps earlier items processed |
| Earley.DriverAdvance | Earley_Parser/EarlyParser/earlyParser.py:164-181 | a step that processed item `k` and only grew cells from `j` on lets the driver move to item `k + 1` |
| Earley.PredStep | Earley_Parser/EarlyParser/earlyParser.py:172-173 | the prediction branch keeps the driver invariant |
| Earley.ScanStep | Earley_Parser/EarlyParser/earlyParser.py:176-179 | the scan branch keeps the driver invariant |
| Earley.CompStep | Earley_Parser/EarlyParser/earlyParser.py:168-169 | the completion branch keeps the driver invariant |
| Earley.SkipStep | Earley_Parser/EarlyParser/earlyParser.py:176-178 | an unscannable terminal item needs no step |
| Earley.ClosedPredict | Earley_Parser/EarlyParser/earlyParser.py:172-173 | in a closed chart, an item before a non-terminal has all its expansions in the same cell |
| Earley.ClosedScan | Earley_Parser/EarlyParser/earlyParser.py:176-179 | in a closed chart, an item before the terminal `w[j]` has its advance in cell `j + 1` |
| Earley.ClosedComplete | Earley_Parser/EarlyParser/earlyParser.py:168-169 | in a closed chart, a finished item advances every waiting item of an earlier origin cell |
| Earley.ClosedCompleteSameCell | Earley_Parser/EarlyParser/earlyParser.py:97-123 | in a closed chart, a finished item whose origin is its own cell advances every waiting item placed before it in that cell |
| Earley.SeededGrows | Earley_Parser/EarlyParser/earlyParser.py:33-46 | growing cells at their end keeps the seed items of `init` at the start of cell 0 |
| Earley.CellsDoneGrows | Earley_Parser/EarlyParser/earlyParser.py:162-181 | growing cells `j` and later keeps every item of the cells before `j` processed |
| Earley.CellDoneGrows | Earley_Parser/EarlyParser/earlyParser.py:162-181 | growing cells `j` and later keeps the already visited items of cell `j` processed, and adds item `k` once its step is done |
| Earley.PredProcessed | Earley_Parser/EarlyParser/earlyParser.py:172-173 | after prediction for item `k` of cell `j`, every expansion of its next symbol is in cell `j`, so the item counts as processed |
| Earley.TableComplete | Earley_Parser/EarlyParser/earlyParser.py:130-148 | true iff the last cell holds an item with origin 0, empty `ad` and lhs named like the axiom |
| Earley.ParseEarley | Earley_Parser/EarlyParser/earlyParser.py:151-188 | returns `len(w) + 1` fresh cells that are sound and closed, with cell 0 still beginning with the seed items; the verdict is the acceptance test's, and acceptance implies the word is derivable |
| Example.BookSeed | Earley_Parser/main.py:42-48 | a seeded chart of the demo grammar holds `[0, S --> . VP]` in cell 0 |
| Example.NLFactsHold | Earley_Parser/main.py:45-56 | the demo grammar has the rules and terminals the acceptance proof uses |
| Example.BookCell0 | Earley_Parser/main.py:45-52 | in a closed chart, the seed `S --> . VP` leads to predicting `VP --> . V NP` and `V --> . book` |
| Example.BookCell1 | Earley_Parser/main.py:49-53 | after "book", cell 1 holds `VP --> V . NP`, `NP --> . Det Noun` and `Det --> . that` |
| Example.BookCell2 | Earley_Parser/main.py:49-55 | after "that", cell 2 holds `NP --> Det . Noun` and `Noun --> . flight` |
| Example.BookCell3 | Earley_Parser/main.py:46-55 | after "flight", cell 3 holds the finished `[0, S --> VP .]` |
| Example.BookThatFlightChart | Earley_Parser/main.py:45-61 | any closed seeded chart for "book that flight" accepts |
| Example.BookThatFlight | Earley_Parser/main.py:28-65 | parsing "book that flight" with the demo grammar is accepted |
| Example.NLNoEmptyWord | Earley_Parser/main.py:45-56 | the demo grammar derives no empty word |
| Example.EmptyWordRejected | Earley_Parser/main.py:28-58 | the empty word is rejected by the demo grammar |
| Example.NLNoFlight | Earley_Parser/main.py:45-56 | the demo grammar does not derive the one-word sentence "flight": the only tree for a one-token word is S, VP, V over a verb, and "flight" is a noun |
| Example.FlightRejected | Earley_Parser/main.py:28-58 | the word "flight" is rejected by the demo grammar |
| Example.EpsilonAccepted | Earley_Parser/EarlyParser/earlyParser.py:36-46 | with the single rule A → ε and axiom A, the seed `[0, A --> .]` is already accepting, so the empty word is accepted |
| Example.ChainChart | Earley_Parser/EarlyParser/earlyParser.py:97-123 | any closed seeded chart for S → A, A → ε and the empty word holds the finished `[0, S --> A .]`, through a completion inside cell 0 |
| Example.NullableChainAccepted | Earley_Parser/EarlyParser/earlyParser.py:151-188 | parsing the empty word with S → A, A → ε is accepted |

## Left out

- Logging is not modelled: the print in `cAppend`, its `reason` argument, and the Success / Failed prints of `parse_earley`. `ParseEarley` returns the verdict that is printed, alongside the table.
- The `__str__` methods are presentation only.
- The class-level `c = []` of `TableCell` is shadowed by the instance list and is not modelled.
- Python object identity is not modelled. A symbol is modelled by its name, so the identity-based tests (`isNonTerminal`, `Item.__eq__`) become name-based. The two agree when a grammar never holds two symbol objects with the same name, as in the demo script.
- Python's dictionary for the table becomes a sequence of `|w| + 1` cells. Its keys are exactly `0 .. len(w)`.
- Earley.ParseEarley: does not claim that every derivable word is accepted. This original form of the algorithm misses some derivations through nullable non-terminals. With rules S → A B, A → ε, B → A and the empty word, `[0, A --> .]` is completed before `[0, B --> . A]` is predicted, and re-predicting `A` inserts nothing. Only soundness and closure are proved. Closure is also weaker than what `comp` does when the origin is the current cell: `comp` advances every waiting item present when its loop ends, while `Closed` only covers the items placed before the finished item. So for some grammars with empty rules the contract leaves the verdict open even where the source accepts. Because the seed items stay first in cell 0, the chain S → A, A → ε is still proved accepted (`Example.NullableChainAccepted`).
- Earley.Comp: when the origin cell is the current cell, the model states which items are added, but not their exact order.
- The demo script is used only for its grammar and sentence (`Example`). Its printing is not modelled.
