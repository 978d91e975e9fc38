/** A full export is a valid import of the same dataset: DataResponse and ParseReplacement undo each other. */
module ExportImport {
  import opened Basics
  import opened Ordering
  import opened Model
  import opened Naming
  import opened Structure
  import opened Remap
  import opened Payload
  import opened PayloadLaws
  import opened Presentation

  /** A full stored view: canonical structure whose codes normalize to their keys, and storable cells of its cube. */
  ghost predicate StoredView(dimensions: seq<Dimension>, cells: seq<Cell>, normalize: Normalizer) {
    && 1 <= |dimensions| <= MAX_DIMENSIONS
    && WellPlaced(dimensions) && Sorted(AxesOf(dimensions))
    && (forall i :: 0 <= i < |dimensions| ==> DimensionCoded(dimensions[i], normalize))
    && CellsAscend(cells) && CellsInside(cells, Count(AxesOf(dimensions)))
    && (forall i :: 0 <= i < |cells| ==> Storable(cells[i].content))
  }

  /** The exported response as a request body. */
  function Reimport(data: Data, replace: bool, stamp: Bytes): Body {
    Body(replace, Some(stamp), data.id, data.dimension, data.value, data.text, data.status)
  }

  // Structure.

  /** A stored dimension in the shape of a requested one. */
  ghost function AsRequest(dimension: Dimension): (request: RequestDimension)
    ensures |request.categories| == |dimension.categories|
  {
    var categories := dimension.categories;
    RequestDimension(dimension.code, seq(|categories|, j requires 0 <= j < |categories| => categories[j].code))
  }

  ghost function AsRequests(dimensions: seq<Dimension>): (requests: seq<RequestDimension>)
    ensures |requests| == |dimensions|
  {
    seq(|dimensions|, i requires 0 <= i < |dimensions| => AsRequest(dimensions[i]))
  }

  lemma AsRequestsAxes(dimensions: seq<Dimension>)
    ensures AxesOfRequest(AsRequests(dimensions)) == AxesOf(dimensions)
  {
    forall i | 0 <= i < |dimensions| ensures AxesOfRequest(AsRequests(dimensions))[i] == AxesOf(dimensions)[i] {
      assert AxisOfRequest(AsRequest(dimensions[i])).cats == AxisOf(dimensions[i]).cats;
    }
  }

  /** Codes with different keys have different spellings. */
  lemma SpellingsDiffer(dimension: Dimension, normalize: Normalizer)
    requires DimensionCoded(dimension, normalize) && Distinct(AxisOf(dimension).cats)
    ensures DistinctCategorySpellings(dimension)
  {
    forall i, j | 0 <= i < j < |dimension.categories|
      ensures dimension.categories[i].code.spelling != dimension.categories[j].code.spelling
    {
      assert AxisOf(dimension).cats[i] != AxisOf(dimension).cats[j];
    }
  }

  lemma ViewSpellingsDiffer(dimensions: seq<Dimension>, cells: seq<Cell>, normalize: Normalizer)
    requires StoredView(dimensions, cells, normalize)
    ensures DistinctSpellings(dimensions) && WellFormed(AxesOf(dimensions))
  {
    var axes := AxesOf(dimensions);
    SortedIsWellFormed(axes);
    forall i | 0 <= i < |dimensions| ensures DistinctCategorySpellings(dimensions[i]) {
      assert axes[i] == AxisOf(dimensions[i]);
      SpellingsDiffer(dimensions[i], normalize);
    }
    forall i, j | 0 <= i < j < |dimensions| ensures dimensions[i].code.spelling != dimensions[j].code.spelling {
      assert axes[i].key != axes[j].key;
      assert DimensionCoded(dimensions[i], normalize) && DimensionCoded(dimensions[j], normalize);
    }
  }

  ghost function SpellingsOf(dimension: Dimension): (spellings: seq<Bytes>)
    ensures |spellings| == |dimension.categories|
  {
    seq(|dimension.categories|, j requires 0 <= j < |dimension.categories| => dimension.categories[j].code.spelling)
  }

  lemma IndexKeys(index: CategoryIndex, dimension: Dimension)
    requires IndexOf(index, dimension) && DistinctCategorySpellings(dimension)
    ensures index.Keys == Elements(SpellingsOf(dimension)) && |index| == |dimension.categories|
  {
    var spellings := SpellingsOf(dimension);
    DistinctSize(spellings);
    forall s ensures s in index <==> s in Elements(spellings) {
      if s in index {
        var j :| 0 <= j < |dimension.categories| && dimension.categories[j].code.spelling == s;
        assert spellings[j] == s;
      }
    }
    assert index.Keys == Elements(spellings);
  }

  /** An exported category index is a permutation again, and parsing it gives back the stored categories in order. */
  lemma IndexReparsed(index: CategoryIndex, dimension: Dimension, normalize: Normalizer)
    requires IndexOf(index, dimension) && DimensionCoded(dimension, normalize) && dimension.categories != []
    requires Distinct(AxisOf(dimension).cats)
    requires forall j :: 0 <= j < |dimension.categories| ==> dimension.categories[j].position == j
    ensures CategoriesAccepted(index, normalize)
    ensures CategoriesFor(index, normalize) == AsRequest(dimension).categories
  {
    var spellings := SpellingsOf(dimension);
    SpellingsDiffer(dimension, normalize);
    IndexKeys(index, dimension);
    ReparsedCodes(index, dimension, normalize);
    forall p | 0 <= p < |index| ensures CategoriesFor(index, normalize)[p] == dimension.categories[p].code {
      assert spellings[p] in index && index[spellings[p]] == p;
      SlotsFilled(index, p);
    }
  }

  lemma ReparsedCodes(index: CategoryIndex, dimension: Dimension, normalize: Normalizer)
    requires IndexOf(index, dimension) && DimensionCoded(dimension, normalize) && Distinct(AxisOf(dimension).cats)
    ensures DistinctCodes(index.Keys, normalize)
  {
    var cats := AxisOf(dimension).cats;
    forall s | s in index.Keys
      ensures s in normalize
      ensures exists j :: 0 <= j < |cats| && dimension.categories[j].code.spelling == s && cats[j] == normalize[s]
    {
      var j :| 0 <= j < |dimension.categories| && dimension.categories[j].code.spelling == s;
      assert cats[j] == dimension.categories[j].code.key;
    }
  }

  lemma DimensionReparsed(id: seq<Bytes>, dimension: DimensionMap, dimensions: seq<Dimension>, cells: seq<Cell>,
                          normalize: Normalizer, i: nat)
    requires StoredView(dimensions, cells, normalize) && StructureOf(id, dimension, dimensions) && i < |dimensions|
    requires DistinctCodes(dimension.Keys, normalize)
    ensures CategoriesAccepted(dimension[id[i]], normalize)
    ensures DimensionFor(dimension, normalize, KeyOf(normalize, id[i])) == AsRequest(dimensions[i])
  {
    var axes := AxesOf(dimensions);
    SortedIsWellFormed(axes);
    assert axes[i] == AxisOf(dimensions[i]) && DimensionCoded(dimensions[i], normalize);
    IndexReparsed(dimension[id[i]], dimensions[i], normalize);
    EntryUnique(dimension, normalize, id[i]);
  }

  lemma ReparsedKeys(id: seq<Bytes>, dimension: DimensionMap, keys: seq<Key>, normalize: Normalizer)
    requires keys == IdKeys(id, normalize) && Distinct(keys)
    requires forall i :: 0 <= i < |id| ==> id[i] in normalize && id[i] in dimension
    requires forall s :: s in dimension ==> s in id
    ensures DistinctCodes(dimension.Keys, normalize)
    ensures Elements(keys) == DimensionKeys(dimension, normalize)
  {
    forall s | s in dimension ensures s in normalize && KeyOf(normalize, s) in Elements(keys) {
      var i :| 0 <= i < |id| && id[i] == s;
      assert keys[i] == KeyOf(normalize, s);
    }
    forall s, t | s in dimension && t in dimension && KeyOf(normalize, s) == KeyOf(normalize, t) ensures s == t {
      var i :| 0 <= i < |id| && id[i] == s;
      var j :| 0 <= j < |id| && id[j] == t;
      assert keys[i] == keys[j];
    }
    forall k | k in Elements(keys) ensures k in DimensionKeys(dimension, normalize) {
      var i :| 0 <= i < |keys| && keys[i] == k;
      assert id[i] in dimension;
    }
  }

  lemma NamesReparsed(id: seq<Bytes>, dimension: DimensionMap, dimensions: seq<Dimension>, cells: seq<Cell>,
                      normalize: Normalizer)
    requires StoredView(dimensions, cells, normalize) && StructureOf(id, dimension, dimensions)
    ensures forall i :: 0 <= i < |id| ==> id[i] in normalize
    ensures Distinct(IdKeys(id, normalize)) && DistinctCodes(dimension.Keys, normalize)
    ensures Elements(IdKeys(id, normalize)) == DimensionKeys(dimension, normalize)
  {
    var axes, keys := AxesOf(dimensions), IdKeys(id, normalize);
    SortedIsWellFormed(axes);
    forall i | 0 <= i < |dimensions| ensures id[i] in normalize && keys[i] == axes[i].key {
      assert DimensionCoded(dimensions[i], normalize);
    }
    ReparsedKeys(id, dimension, keys, normalize);
  }

  lemma IndexesReparsed(id: seq<Bytes>, dimension: DimensionMap, dimensions: seq<Dimension>, cells: seq<Cell>,
                        normalize: Normalizer)
    requires StoredView(dimensions, cells, normalize) && StructureOf(id, dimension, dimensions)
    requires DistinctCodes(dimension.Keys, normalize)
    ensures forall s :: s in dimension ==> CategoriesAccepted(dimension[s], normalize)
  {
    forall s | s in dimension ensures CategoriesAccepted(dimension[s], normalize) {
      var i :| 0 <= i < |id| && id[i] == s;
      DimensionReparsed(id, dimension, dimensions, cells, normalize, i);
    }
  }

  lemma DimensionsReparsed(id: seq<Bytes>, dimension: DimensionMap, dimensions: seq<Dimension>, cells: seq<Cell>,
                           normalize: Normalizer)
    requires StoredView(dimensions, cells, normalize) && StructureOf(id, dimension, dimensions)
    requires DistinctCodes(dimension.Keys, normalize)
    ensures DimensionsFor(id, dimension, normalize) == AsRequests(dimensions)
  {
    forall i | 0 <= i < |dimensions|
      ensures DimensionFor(dimension, normalize, KeyOf(normalize, id[i])) == AsRequest(dimensions[i])
    {
      DimensionReparsed(id, dimension, dimensions, cells, normalize, i);
    }
  }

  /** The exported structure is accepted and parses to the stored dimensions in stored order. */
  lemma StructureReparsed(id: seq<Bytes>, dimension: DimensionMap, dimensions: seq<Dimension>, cells: seq<Cell>,
                          normalize: Normalizer)
    requires StoredView(dimensions, cells, normalize) && StructureOf(id, dimension, dimensions)
    ensures NamesAgree(id, dimension, normalize)
    ensures DimensionsFor(id, dimension, normalize) == AsRequests(dimensions)
  {
    NamesReparsed(id, dimension, dimensions, cells, normalize);
    IndexesReparsed(id, dimension, dimensions, cells, normalize);
    DimensionsReparsed(id, dimension, dimensions, cells, normalize);
  }

  /** Storing the stored dimensions changes nothing: sorting is idempotent. */
  lemma StoredAgain(dimensions: seq<Dimension>)
    requires WellPlaced(dimensions) && Sorted(AxesOf(dimensions))
    ensures StoredDimensions(AsRequests(dimensions)) == dimensions
  {
    KeyOrders();
    var unplaced := Unplaced(AsRequests(dimensions));
    forall i | 0 <= i < |dimensions| ensures unplaced[i] == dimensions[i].(position := 0) {
      assert AxesOf(dimensions)[i] == AxisOf(dimensions[i]);
      CategoriesAgain(dimensions[i]);
    }
    var keys := KeysOf(AxesOf(dimensions));
    forall i, j | 0 <= i < j < |unplaced| ensures ByDimensionKey()(unplaced[i], unplaced[j]) {
      assert ByBytes()(keys[i], keys[j]);
    }
    AlreadySorted(unplaced, ByDimensionKey());
  }

  lemma CategoriesAgain(dimension: Dimension)
    requires Ascending(AxisOf(dimension).cats, ByBytes())
    requires forall j :: 0 <= j < |dimension.categories| ==> dimension.categories[j].position == j
    ensures StoredDimension(AsRequest(dimension)) == dimension.(position := 0)
  {
    KeyOrders();
    var codes := AsRequest(dimension).categories;
    forall i, j | 0 <= i < j < |codes| ensures ByCodeKey()(codes[i], codes[j]) {
      assert ByBytes()(AxisOf(dimension).cats[i], AxisOf(dimension).cats[j]);
    }
    AlreadySorted(codes, ByCodeKey());
  }

  // Cells.

  /** Merging the three channels of a set of storable cells gives the cells back. */
  lemma MergeOfCarried(cells: map<int, Content>)
    requires forall k :: k in cells ==> Storable(cells[k])
    ensures MergeOf(Carried(cells, NumericOf), Carried(cells, TextOf), Carried(cells, StatusOf)) == cells
    ensures Carried(cells, NumericOf).Keys !! Carried(cells, TextOf).Keys
  {
    var merged := MergeOf(Carried(cells, NumericOf), Carried(cells, TextOf), Carried(cells, StatusOf));
    forall k ensures k in merged <==> k in cells {
    }
    forall k | k in merged ensures merged[k] == cells[k] {
    }
  }

  /** On a structure that is already stored the remap is the identity. */
  lemma RemapIdentity(axes: seq<Axis>, cells: map<int, Content>)
    requires WellFormed(axes) && forall k :: k in cells ==> 0 <= k < Count(axes)
    ensures forall k :: 0 <= k < Count(axes) ==> StoredIndex(axes, axes, k) == k
    ensures Moved(axes, axes, cells) == cells
  {
    forall k | 0 <= k < Count(axes) ensures StoredIndex(axes, axes, k) == k {
      IndexNamedUnique(axes, k);
    }
    PulledIdentity(Origins(axes, axes), cells);
  }

  lemma PulledIdentity(origins: seq<int>, cells: map<int, Content>)
    requires forall k :: 0 <= k < |origins| ==> origins[k] == k
    requires forall k :: k in cells ==> 0 <= k < |origins|
    ensures Pulled(origins, cells) == cells
  {
  }

  /** The fixed point. A full response of a stored view, dense or sparse, is accepted as a replacement for any limit its
      cube fits, and whatever the parse returns has the same dimensions, cells and counts; the remap moved nothing. */
  lemma ExportThenImport(view: View, data: Data, dense: bool, normalize: Normalizer, provider: Bytes, dataset: Bytes,
                         replace: bool, stamp: Bytes, maxCells: int)
    requires StoredView(view.dimensions, view.cells, normalize) && provider in normalize && dataset in normalize
    requires Count(AxesOf(view.dimensions)) <= maxCells && Count(AxesOf(view.dimensions)) <= MAX_INT64
    requires StructureOf(data.id, data.dimension, view.dimensions)
    requires Count(AxesOf(view.dimensions)) >= 0 && Presents(data, view.cells, Count(AxesOf(view.dimensions)), dense)
    ensures Accepted(provider, dataset, Reimport(data, replace, stamp), normalize, maxCells)
    ensures forall r :: ParsedAs(provider, dataset, Reimport(data, replace, stamp), normalize, r) ==>
      && r.dimensions == view.dimensions && r.cells == view.cells
      && r.cellCount == Count(AxesOf(view.dimensions)) && r.valuedCount == ValuedCells(view.cells)
  {
    var body, axes := Reimport(data, replace, stamp), AxesOf(view.dimensions);
    var count, cells := Count(axes), CellMap(view.cells);
    SortedIsWellFormed(axes);
    SizesPositive(axes);
    StructureReparsed(data.id, data.dimension, view.dimensions, view.cells, normalize);
    AsRequestsAxes(view.dimensions);
    StoredAgain(view.dimensions);
    StorableCells(view.cells, count);
    MergeOfCarried(cells);
    RemapIdentity(axes, cells);
    assert RequestCells(body, count) == cells;
    forall r | ParsedAs(provider, dataset, body, normalize, r)
      ensures r.dimensions == view.dimensions && r.cells == view.cells
      ensures r.cellCount == count && r.valuedCount == ValuedCells(view.cells)
    {
      AscendingCellsUnique(r.cells, view.cells);
    }
  }

  lemma StorableCells(cells: seq<Cell>, count: int)
    requires CellsAscend(cells) && CellsInside(cells, count)
    requires forall i :: 0 <= i < |cells| ==> Storable(cells[i].content)
    ensures forall k :: k in CellMap(cells) ==> 0 <= k < count && Storable(CellMap(cells)[k])
  {
    forall k | k in CellMap(cells) ensures 0 <= k < count && Storable(CellMap(cells)[k]) {
      CellMapMember(cells, k);
    }
  }

  // Every stored replacement is such a view.

  /** Every well-formed replacement is such a view. */
  lemma ReplacementIsStoredView(r: Replacement, normalize: Normalizer, maxCells: int)
    requires WellFormedReplacement(r, maxCells) && WellCodedReplacement(r, normalize)
    ensures StoredView(r.dimensions, r.cells, normalize)
  {
  }

  /** What an accepted payload stores can be exported and imported again: ExportThenImport applies to it. */
  lemma AcceptedIsStoredView(provider: Bytes, dataset: Bytes, body: Body, normalize: Normalizer, maxCells: int,
                             r: Replacement)
    requires Accepted(provider, dataset, body, normalize, maxCells) && ParsedAs(provider, dataset, body, normalize, r)
    ensures StoredView(r.dimensions, r.cells, normalize)
    ensures r.cellCount == Count(AxesOf(r.dimensions)) <= maxCells
  {
    AcceptedIsStorable(provider, dataset, body, normalize, maxCells, r);
    ReplacementIsStoredView(r, normalize, maxCells);
  }

  /** The smallest such view: one dimension, one category, no cell. */
  lemma SmallestView(code: Code, normalize: Normalizer)
    requires CodedBy(code, normalize)
    ensures StoredView([Dimension(code, 0, [Category(code, 0)])], [], normalize)
  {
    var dimension := Dimension(code, 0, [Category(code, 0)]);
    assert AxesOf([dimension])[0] == AxisOf(dimension) && |AxisOf(dimension).cats| == 1;
  }
}
