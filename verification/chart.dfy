/** Earley items and the chart cells that hold them. */
module Chart {
  import opened CFG

  /** The dotted rule `[i, lhs --> bd . ad]`: a constituent `lhs` that began at
      input position `i`, has matched `bd` and still expects `ad`. */
  datatype Item = Item(i: nat, lhs: Symbol, bd: seq<Symbol>, ad: seq<Symbol>)
  {
    /** Items are equal when all four components are. */
    function Equals(other: Item): (r: bool)
      ensures r <==> this == other
    {
      i == other.i && lhs == other.lhs && bd == other.bd && ad == other.ad
    }
  }

  /** No item occurs twice in `c`. */
  ghost predicate NoDup(c: seq<Item>)
  {
    forall a, b :: 0 <= a < b < |c| ==> c[a] != c[b]
  }

  /** The cell contents after inserting `item` unless it is already present. */
  function Appended(c: seq<Item>, item: Item): seq<Item>
  {
    if item in c then c else c + [item]
  }

  /** The cell contents after inserting each of `items`, in order. */
  function AppendAll(c: seq<Item>, items: seq<Item>): seq<Item>
  {
    if items == [] then c
    else Appended(AppendAll(c, items[..|items| - 1]), items[|items| - 1])
  }

  lemma AppendAllSnoc(c: seq<Item>, items: seq<Item>, x: Item)
    ensures AppendAll(c, items + [x]) == Appended(AppendAll(c, items), x)
  {
    assert (items + [x])[..|items|] == items;
  }

  /** Insertion keeps existing entries in place, adds the item, adds nothing
      else and keeps the cell free of duplicates. */
  lemma AppendedProperties(c: seq<Item>, item: Item)
    ensures c <= Appended(c, item)
    ensures item in Appended(c, item)
    ensures forall y :: y in Appended(c, item) <==> y in c || y == item
    ensures NoDup(c) ==> NoDup(Appended(c, item))
  {
  }

  /** Inserting the same item twice leaves the same cell as inserting it once. */
  lemma AppendedIdempotent(c: seq<Item>, item: Item)
    ensures Appended(Appended(c, item), item) == Appended(c, item)
  {
  }

  lemma {:induction false} AppendAllProperties(c: seq<Item>, items: seq<Item>)
    ensures c <= AppendAll(c, items)
    ensures forall y :: y in AppendAll(c, items) <==> y in c || y in items
    ensures NoDup(c) ==> NoDup(AppendAll(c, items))
  {
    if items != [] {
      var init := items[..|items| - 1];
      AppendAllProperties(c, init);
      AppendedProperties(AppendAll(c, init), items[|items| - 1]);
      assert items == init + [items[|items| - 1]];
    }
  }

  /** Inserting items that are all present already changes nothing. */
  lemma {:induction false} AppendAllPresent(c: seq<Item>, items: seq<Item>)
    requires forall y :: y in items ==> y in c
    ensures AppendAll(c, items) == c
  {
    if items != [] {
      AppendAllPresent(c, items[..|items| - 1]);
      assert items[|items| - 1] in items;
    }
  }

  /** One cell of the chart: an insertion-ordered list of distinct items. */
  class TableCell {
    var c: seq<Item>

    constructor ()
      ensures c == []
    {
      c := [];
    }

    function Len(): (n: nat)
      reads this
      ensures n == |c|
    {
      |c|
    }

    function At(index: nat): (it: Item)
      reads this
      requires index < |c|
      ensures it == c[index] && it in c
    {
      c[index]
    }

    /** Appends `item` unless an equal item is already in the cell. */
    method CAppend(item: Item)
      modifies this
      ensures c == Appended(old(c), item)
      ensures old(item in c) ==> c == old(c)
      ensures old(item !in c) ==> c == old(c) + [item]
    {
      if item !in c {
        c := c + [item];
      }
    }
  }

  /** The cells of a table are pairwise different objects. */
  ghost predicate Distinct(T: seq<TableCell>)
  {
    forall a, b :: 0 <= a < b < |T| ==> T[a] != T[b]
  }

  /** The contents of every cell of `T`. */
  ghost function Snapshot(T: seq<TableCell>): (cells: seq<seq<Item>>)
    reads T
    ensures |cells| == |T|
    ensures forall a :: 0 <= a < |T| ==> cells[a] == T[a].c
  {
    if T == [] then [] else Snapshot(T[..|T| - 1]) + [T[|T| - 1].c]
  }
}
