/** What every accepted payload satisfies once stored: conservation of its contents, and the conditions the schema and
    the rest of the service rely on. */
module PayloadLaws {
  import opened Basics
  import opened Ordering
  import opened Model
  import opened Naming
  import opened Structure
  import opened Channels
  import opened Remap
  import opened Payload

  ghost function KeysWhere(cells: map<int, Content>, p: Content -> bool): set<int> {
    set k | k in cells && p(cells[k])
  }

  lemma {:induction false} InjectedSize(a: set<int>, b: set<int>, f: seq<int>)
    requires forall x :: x in a ==> 0 <= x < |f| && f[x] in b
    requires forall x, y :: x in a && y in a && f[x] == f[y] ==> x == y
    ensures |a| <= |b|
  {
    if a != {} {
      var x := Inhabited(a);
      InjectedSize(a - {x}, b - {f[x]}, f);
    }
  }

  /** Moving cells conserves them: for every property of a content, as many stored cells have it as payload cells.
      Taking "equals c" for the property, the two multisets of contents are equal. */
  lemma MoveConserves(request: seq<Axis>, stored: seq<Axis>, cells: map<int, Content>, p: Content -> bool)
    requires WellFormed(request) && WellFormed(stored) && SameCube(request, stored)
    requires forall k :: k in cells ==> 0 <= k < Count(request)
    ensures |KeysWhere(Moved(request, stored, cells), p)| == |KeysWhere(cells, p)|
  {
    SameCount(request, stored);
    var there, back := Origins(stored, request), Origins(request, stored);
    forall k | 0 <= k < Count(request) ensures 0 <= there[k] < |back| && back[there[k]] == k {
      RemapIsBijection(request, stored, k);
    }
    forall s | 0 <= s < Count(stored) ensures 0 <= back[s] < |there| && there[back[s]] == s {
      RemapIsBijection(stored, request, s);
    }
    PullConserves(there, back, cells, p);
  }

  lemma PullConserves(there: seq<int>, back: seq<int>, cells: map<int, Content>, p: Content -> bool)
    requires forall k :: 0 <= k < |there| ==> 0 <= there[k] < |back| && back[there[k]] == k
    requires forall s :: 0 <= s < |back| ==> 0 <= back[s] < |there| && there[back[s]] == s
    requires forall k :: k in cells ==> 0 <= k < |there|
    ensures |KeysWhere(Pulled(back, cells), p)| == |KeysWhere(cells, p)|
  {
    InjectedSize(KeysWhere(Pulled(back, cells), p), KeysWhere(cells, p), back);
    InjectedSize(KeysWhere(cells, p), KeysWhere(Pulled(back, cells), p), there);
  }

  lemma KeysWhereAdd(cells: map<int, Content>, k: int, content: Content, p: Content -> bool)
    requires k !in cells
    ensures |KeysWhere(cells[k := content], p)| == |KeysWhere(cells, p)| + (if p(content) then 1 else 0)
  {
    var before, after := KeysWhere(cells, p), KeysWhere(cells[k := content], p);
    assert k !in before;
    assert after == if p(content) then before + {k} else before;
  }

  lemma {:induction false} ValuedCellsCount(cells: seq<Cell>)
    requires DistinctIndexes(cells)
    ensures ValuedCells(cells) == |KeysWhere(CellMap(cells), Valued)|
  {
    if cells == [] {
      assert KeysWhere(CellMap(cells), Valued) == {};
    } else {
      var init, last := cells[..|cells| - 1], cells[|cells| - 1];
      ValuedCellsCount(init);
      CellMapMember(init, last.index);
      CellMapSnoc(init, last);
      assert cells == init + [last];
      KeysWhereAdd(CellMap(init), last.index, last.content, Valued);
    }
  }

  lemma MergeValuedKeys(numeric: map<int, Number>, text: map<int, Bytes>, status: map<int, Bytes>)
    ensures KeysWhere(MergeOf(numeric, text, status), Valued) == numeric.Keys + text.Keys
  {
    forall k ensures k in KeysWhere(MergeOf(numeric, text, status), Valued) <==> k in numeric.Keys + text.Keys {
    }
  }

  lemma DisjointSize(a: set<int>, b: set<int>, count: nat)
    requires a !! b && forall k :: k in a + b ==> 0 <= k < count
    ensures |a + b| == |a| + |b| <= count
  {
    SubsetSize(a + b, Below(count));
  }

  lemma MergedValued(body: Body, count: nat)
    requires ChannelsAccepted(body, count)
    ensures |KeysWhere(RequestCells(body, count), Valued)|
            == |Denoted(body.value, count).Keys| + |Denoted(body.text, count).Keys| <= count
  {
    MergeValuedKeys(Denoted(body.value, count), Denoted(body.text, count), StatusDenoted(body.status, count));
    DenotedInCube(body.value, count);
    DenotedInCube(body.text, count);
    DisjointSize(Denoted(body.value, count).Keys, Denoted(body.text, count).Keys, count);
  }

  /** Neither a number nor a text is gained or lost: the stored valued count is the number of numeric entries plus the
      number of text entries, and it is at most the cell count. */
  lemma ValuedCountConserved(provider: Bytes, dataset: Bytes, body: Body, normalize: Normalizer, maxCells: int,
                             r: Replacement)
    requires Accepted(provider, dataset, body, normalize, maxCells) && ParsedAs(provider, dataset, body, normalize, r)
    ensures r.valuedCount
            == |Denoted(body.value, r.cellCount).Keys| + |Denoted(body.text, r.cellCount).Keys| <= r.cellCount
  {
    var dimensions := RequestOf(body, normalize);
    StoredIsCanonical(dimensions);
    RequestCellsInCube(body, r.cellCount);
    MoveConserves(AxesOfRequest(dimensions), AxesOf(StoredDimensions(dimensions)), RequestCells(body, r.cellCount),
                  Valued);
    ValuedCellsCount(r.cells);
    MergedValued(body, r.cellCount);
  }

  /** Every stored cell is inside the cube and has some content, but not both a number and a text. */
  lemma StoredContents(provider: Bytes, dataset: Bytes, body: Body, normalize: Normalizer, maxCells: int,
                       r: Replacement)
    requires Accepted(provider, dataset, body, normalize, maxCells) && ParsedAs(provider, dataset, body, normalize, r)
    ensures forall i :: 0 <= i < |r.cells| ==> 0 <= r.cells[i].index < r.cellCount && Storable(r.cells[i].content)
  {
    var dimensions, cells := RequestOf(body, normalize), RequestCells(body, r.cellCount);
    StoredIsCanonical(dimensions);
    SameCount(AxesOfRequest(dimensions), AxesOf(StoredDimensions(dimensions)));
    MergedIsStorable(body, r.cellCount);
    PulledContents(Origins(AxesOfRequest(dimensions), AxesOf(StoredDimensions(dimensions))), cells, r.cells);
  }

  lemma PulledContents(origins: seq<int>, cells: map<int, Content>, stored: seq<Cell>)
    requires DistinctIndexes(stored) && CellMap(stored) == Pulled(origins, cells)
    requires forall k :: k in cells ==> Storable(cells[k])
    ensures forall i :: 0 <= i < |stored| ==> 0 <= stored[i].index < |origins| && Storable(stored[i].content)
  {
    forall i | 0 <= i < |stored| ensures 0 <= stored[i].index < |origins| && Storable(stored[i].content) {
      var k := stored[i].index;
      CellMapAt(stored, i);
      PulledAt(origins, cells, k);
      var origin := origins[k];
      assert origin in cells && Storable(cells[origin]);
      assert Pulled(origins, cells)[k] == cells[origin];
      assert stored[i].content == cells[origin];
    }
  }

  /** Every cell that any channel mentions is stored exactly once; a scalar status stores every logical cell. */
  lemma StoredCount(provider: Bytes, dataset: Bytes, body: Body, normalize: Normalizer, maxCells: int, r: Replacement)
    requires Accepted(provider, dataset, body, normalize, maxCells) && ParsedAs(provider, dataset, body, normalize, r)
    ensures |r.cells| == |RequestCells(body, r.cellCount)|
    ensures body.status.Scalar? ==> |r.cells| == r.cellCount
  {
    var dimensions, cells := RequestOf(body, normalize), RequestCells(body, r.cellCount);
    StoredIsCanonical(dimensions);
    RequestCellsInCube(body, r.cellCount);
    MoveConserves(AxesOfRequest(dimensions), AxesOf(StoredDimensions(dimensions)), cells, (c: Content) => true);
    CellMapSize(r.cells);
    AllKeys(cells);
    AllKeys(CellMap(r.cells));
    if body.status.Scalar? {
      ScalarFillsCube(body, r.cellCount);
    }
  }

  lemma ScalarFillsCube(body: Body, count: nat)
    requires ChannelsAccepted(body, count) && body.status.Scalar?
    ensures |RequestCells(body, count)| == count
  {
    RequestCellsInCube(body, count);
    assert RequestCells(body, count).Keys == Below(count);
  }

  lemma AllKeys(cells: map<int, Content>)
    ensures |KeysWhere(cells, (c: Content) => true)| == |cells|
  {
    assert KeysWhere(cells, (c: Content) => true) == cells.Keys;
  }

  lemma MergedIsStorable(body: Body, count: nat)
    requires ChannelsAccepted(body, count)
    ensures forall k :: k in RequestCells(body, count) ==> Storable(RequestCells(body, count)[k])
  {
  }

  /** What the rest of the service and the schema constraints expect of a replacement. */
  ghost predicate WellFormedReplacement(r: Replacement, maxCells: int) {
    && 1 <= |r.dimensions| <= MAX_DIMENSIONS
    && WellPlaced(r.dimensions) && Sorted(AxesOf(r.dimensions))
    && r.cellCount == Count(AxesOf(r.dimensions)) && 1 <= r.cellCount <= maxCells
    && CellsAscend(r.cells)
    && (forall i :: 0 <= i < |r.cells| ==> 0 <= r.cells[i].index < r.cellCount && Storable(r.cells[i].content))
    && r.valuedCount == ValuedCells(r.cells) && 0 <= r.valuedCount <= r.cellCount
  }

  ghost predicate DimensionCoded(dimension: Dimension, normalize: Normalizer) {
    && CodedBy(dimension.code, normalize)
    && forall j :: 0 <= j < |dimension.categories| ==> CodedBy(dimension.categories[j].code, normalize)
  }

  ghost predicate WellCodedReplacement(r: Replacement, normalize: Normalizer) {
    && CodedBy(r.provider, normalize) && CodedBy(r.dataset, normalize)
    && forall i :: 0 <= i < |r.dimensions| ==> DimensionCoded(r.dimensions[i], normalize)
  }

  lemma StoredCoded(dimensions: seq<RequestDimension>, normalize: Normalizer, j: nat)
    requires WellCoded(dimensions, normalize) && j < |dimensions|
    ensures |StoredDimensions(dimensions)| == |dimensions| && DimensionCoded(StoredDimensions(dimensions)[j], normalize)
  {
    var i := StoredFrom(dimensions, j);
    var codes := dimensions[i].categories;
    SortContents(codes, ByCodeKey());
    SortElements(codes, ByCodeKey());
    forall k | 0 <= k < |Sort(codes, ByCodeKey())| ensures CodedBy(Sort(codes, ByCodeKey())[k], normalize) {
      assert Sort(codes, ByCodeKey())[k] in codes;
    }
  }

  /** Every accepted payload is well-formed: the statements of the write transaction cannot hit a check constraint. */
  lemma AcceptedIsStorable(provider: Bytes, dataset: Bytes, body: Body, normalize: Normalizer, maxCells: int,
                           r: Replacement)
    requires Accepted(provider, dataset, body, normalize, maxCells) && ParsedAs(provider, dataset, body, normalize, r)
    ensures WellFormedReplacement(r, maxCells) && WellCodedReplacement(r, normalize) && KeysAscend(r.dimensions)
  {
    var dimensions := RequestOf(body, normalize);
    AcceptedIsWellFormed(body.id, body.dimension, normalize);
    StoredIsCanonical(dimensions);
    StoredLength(dimensions);
    forall j | 0 <= j < |r.dimensions| ensures DimensionCoded(r.dimensions[j], normalize) {
      StoredCoded(dimensions, normalize, j);
    }
    SameCount(AxesOfRequest(dimensions), AxesOf(r.dimensions));
    SizesPositive(AxesOfRequest(dimensions));
    StoredContents(provider, dataset, body, normalize, maxCells, r);
    ValuedCountConserved(provider, dataset, body, normalize, maxCells, r);
  }
}
