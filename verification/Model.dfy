/** internal/domain/model.go: codes, structure, cells and views. */
module Model {
  import opened Basics
  import opened Ordering

  type Key = Bytes

  /** A finite float64, compared and copied but never computed with. */
  type Number(==, !new)

  const MAX_CODE_BYTES := 256

  predicate CodeLength(s: Bytes) {
    1 <= |s| <= MAX_CODE_BYTES
  }

  /** NormalizeCode (internal/domain/normalize.go) as seen from its callers: a fixed partial function from spelling to
      key that accepts no spelling and gives no key that is empty or above 256 bytes. A finite map loses no
      generality. */
  type Normalizer = m: map<Bytes, Key> | forall s :: s in m ==> CodeLength(s) && CodeLength(m[s])

  datatype Code = Code(spelling: Bytes, key: Key)

  datatype Category = Category(code: Code, position: int)

  datatype Dimension = Dimension(code: Code, position: int, categories: seq<Category>)

  /** A dimension as a payload or a selection names it: categories in the caller's order. */
  datatype RequestDimension = RequestDimension(code: Code, categories: seq<Code>)

  datatype Content = Content(numeric: Option<Number>, text: Option<Bytes>, status: Option<Bytes>)

  datatype Cell = Cell(index: int, content: Content)

  const NO_CONTENT := Content(None, None, None)
  const MAX_DIMENSIONS := 64
  const SCHEMA_MAX_CELLS := 1_000_000

  predicate Valued(content: Content) {
    content.numeric.Some? || content.text.Some?
  }

  /** What the schema allows in a row: something, and not both a number and a text. */
  predicate Storable(content: Content) {
    content != NO_CONTENT && (content.numeric.None? || content.text.None?)
  }

  predicate CellsAscend(cells: seq<Cell>) {
    forall i, j :: 0 <= i < j < |cells| ==> cells[i].index < cells[j].index
  }

  predicate DistinctIndexes(cells: seq<Cell>) {
    forall i, j :: 0 <= i < j < |cells| ==> cells[i].index != cells[j].index
  }

  /** The same information without an order: which index holds what. */
  ghost function CellMap(cells: seq<Cell>): (m: map<int, Content>)
    requires DistinctIndexes(cells)
  {
    map i | 0 <= i < |cells| :: cells[i].index := cells[i].content
  }

  function ByIndex(): (Cell, Cell) -> bool {
    (a: Cell, b: Cell) => a.index < b.index
  }

  lemma CellMapAt(cells: seq<Cell>, i: nat)
    requires DistinctIndexes(cells) && i < |cells|
    ensures cells[i].index in CellMap(cells) && CellMap(cells)[cells[i].index] == cells[i].content
  {
  }

  lemma CellMapMember(cells: seq<Cell>, k: int)
    requires DistinctIndexes(cells)
    ensures k in CellMap(cells) <==> exists i :: 0 <= i < |cells| && cells[i].index == k
    ensures k in CellMap(cells) ==> Cell(k, CellMap(cells)[k]) in cells
  {
    if k in CellMap(cells) {
      var i :| 0 <= i < |cells| && cells[i].index == k;
      assert cells[i] == Cell(k, CellMap(cells)[k]);
    }
  }

  lemma CellMapSnoc(cells: seq<Cell>, cell: Cell)
    requires DistinctIndexes(cells) && cell.index !in CellMap(cells)
    ensures DistinctIndexes(cells + [cell])
    ensures CellMap(cells + [cell]) == CellMap(cells)[cell.index := cell.content]
  {
    var more := cells + [cell];
    forall i, j | 0 <= i < j < |more| ensures more[i].index != more[j].index {
      assert cells[i].index in CellMap(cells);
    }
    assert forall i :: 0 <= i < |cells| ==> more[i] == cells[i];
    assert more[|cells|] == cell;
  }

  lemma {:induction false} CellMapSize(cells: seq<Cell>)
    requires DistinctIndexes(cells)
    ensures |CellMap(cells)| == |cells|
  {
    if cells == [] {
      assert CellMap(cells) == map[];
    } else {
      var init, last := cells[..|cells| - 1], cells[|cells| - 1];
      CellMapSize(init);
      CellMapMember(init, last.index);
      CellMapSnoc(init, last);
      assert cells == init + [last];
    }
  }

  /** Two lists with the same cells hold the same content. */
  lemma CellMapOfRearranged(cells: seq<Cell>, others: seq<Cell>)
    requires DistinctIndexes(cells) && DistinctIndexes(others)
    requires forall c :: c in cells <==> c in others
    ensures CellMap(cells) == CellMap(others)
  {
    forall k ensures k in CellMap(cells) <==> k in CellMap(others) {
      CellMapMember(cells, k);
      CellMapMember(others, k);
      if k in CellMap(cells) {
        assert Cell(k, CellMap(cells)[k]) in others;
      }
      if k in CellMap(others) {
        assert Cell(k, CellMap(others)[k]) in cells;
      }
    }
    forall k | k in CellMap(cells) ensures CellMap(cells)[k] == CellMap(others)[k] {
      CellMapMember(cells, k);
      var c := Cell(k, CellMap(cells)[k]);
      assert c in others;
    }
  }

  /** In ascending order the cells of a cube can be listed in one way only. */
  lemma AscendingCellsUnique(cells: seq<Cell>, others: seq<Cell>)
    requires CellsAscend(cells) && CellsAscend(others) && CellMap(cells) == CellMap(others)
    ensures cells == others
  {
    SameMembers(cells, others);
    AscendingUnique(cells, others, ByIndex());
  }

  lemma SameMembers(cells: seq<Cell>, others: seq<Cell>)
    requires DistinctIndexes(cells) && DistinctIndexes(others) && CellMap(cells) == CellMap(others)
    ensures forall c :: c in cells <==> c in others
  {
    forall c | c in cells ensures c in others {
      assert c.index in CellMap(cells);
      CellMapMember(others, c.index);
    }
    forall c | c in others ensures c in cells {
      assert c.index in CellMap(others);
      CellMapMember(cells, c.index);
    }
  }

  /** Sorting by index keeps what the cells hold. */
  lemma SortCells(cells: seq<Cell>)
    requires DistinctIndexes(cells)
    ensures CellsAscend(Sort(cells, ByIndex()))
    ensures CellMap(Sort(cells, ByIndex())) == CellMap(cells)
  {
    SortAscending(cells, ByIndex());
    SortElements(cells, ByIndex());
    var sorted := Sort(cells, ByIndex());
    forall i, j | 0 <= i < j < |sorted| ensures sorted[i].index < sorted[j].index {
      assert ByIndex()(sorted[i], sorted[j]);
    }
    CellMapOfRearranged(sorted, cells);
  }
}
