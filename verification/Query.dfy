/** Query (internal/store/postgres.go) on one snapshot: resolve, fetch in batches, renumber. The rows of the dataset are
    a map from cell index to content, as the primary key of storage.observations makes them. */
module Query {
  import opened Basics
  import opened Index
  import opened Model
  import opened Naming
  import opened Structure
  import opened Remap
  import opened Selection
  import opened CubeLaws
  import opened Payload

  const QUERY_BATCH_SIZE := 10_000

  datatype QueryError = LimitExceeded(limit: int) | InvalidSelection

  /** ParseSelection (internal/domain/payload.go): a selection is parsed like a payload's structure, without a cell
      limit. */
  method ParseSelection(id: seq<Bytes>, dimension: DimensionMap, normalize: Normalizer)
    returns (r: Result<seq<RequestDimension>, StructureError>)
    ensures r.Ok? <==> StructureAccepted(id, dimension, normalize, MAX_INT64)
    ensures r.Ok? ==> r.value == DimensionsFor(id, dimension, normalize)
  {
    var parsed := ParseRequestDimensions(id, dimension, normalize, MAX_INT64);
    return if parsed.Ok? then Ok(parsed.value.0) else Err(parsed.error);
  }

  /** The rows a list of indexes finds. */
  ghost predicate Found(rows: map<int, Content>, indices: seq<int>, table: map<int, Content>) {
    forall k :: (k in rows <==> k in indices && k in table) && (k in rows ==> rows[k] == table[k])
  }

  /** One batch: the rows `cell_index = any(batch)` returns, in whatever order, stored by index. */
  method FetchBatch(batch: seq<int>, table: map<int, Content>, storedCells: map<int, Content>, ghost before: seq<int>)
    returns (cells: map<int, Content>)
    requires Found(storedCells, before, table)
    ensures Found(cells, before + batch, table)
  {
    cells := storedCells;
    var remaining := set k | k in batch && k in table;
    ghost var rows := remaining;
    while remaining != {}
      invariant remaining <= rows
      invariant forall k ::
        (k in cells <==> k in storedCells || k in rows - remaining) && (k in cells ==> cells[k] == table[k])
      decreases |remaining|
    {
      ghost var some := Inhabited(remaining);
      var index :| index in remaining;
      cells := cells[index := table[index]];
      remaining := remaining - {index};
    }
  }

  /** Every selected index is asked for exactly once, whatever the batch size, and the result is what one query for all
      of them would find. */
  method FetchCells(indices: seq<int>, table: map<int, Content>, batchSize: nat)
    returns (cells: map<int, Content>, ghost asked: seq<int>)
    requires batchSize > 0
    ensures Found(cells, indices, table) && asked == indices
  {
    cells, asked := map[], [];
    var start := 0;
    while start < |indices|
      invariant start >= 0 && asked == indices[..if start < |indices| then start else |indices|]
      invariant Found(cells, asked, table)
      decreases |indices| - start
    {
      var end := if start + batchSize < |indices| then start + batchSize else |indices|;
      cells := FetchBatch(indices[start..end], table, cells, asked);
      asked := asked + indices[start..end];
      start := start + batchSize;
    }
  }

  /** The populated selected indexes, renumbered by their place in the selection. */
  function Reindexed(indices: seq<int>, table: map<int, Content>): seq<Cell> {
    if indices == [] then [] else
      var n := |indices| - 1;
      Reindexed(indices[..n], table) + (if indices[n] in table then [Cell(n, table[indices[n]])] else [])
  }

  method Reindex(indices: seq<int>, storedCells: map<int, Content>, ghost table: map<int, Content>)
    returns (cells: seq<Cell>)
    requires Found(storedCells, indices, table)
    ensures cells == Reindexed(indices, table)
  {
    cells := [];
    for outputIndex := 0 to |indices|
      invariant cells == Reindexed(indices[..outputIndex], table)
    {
      var internalIndex := indices[outputIndex];
      assert indices[..outputIndex + 1][..outputIndex] == indices[..outputIndex];
      if internalIndex in storedCells {
        cells := cells + [Cell(outputIndex, storedCells[internalIndex])];
      }
    }
    assert indices[..|indices|] == indices;
  }

  /** Output positions ascend; there is a cell at exactly the positions whose selected index is populated, with its
      content. */
  ghost predicate Renumbers(cells: seq<Cell>, indices: seq<int>, table: map<int, Content>) {
    && CellsAscend(cells)
    && (forall c :: c in cells ==>
          0 <= c.index < |indices| && indices[c.index] in table && c.content == table[indices[c.index]])
    && (forall k :: 0 <= k < |indices| && indices[k] in table ==> Cell(k, table[indices[k]]) in cells)
  }

  lemma {:induction false} ReindexedRenumbers(indices: seq<int>, table: map<int, Content>)
    ensures Renumbers(Reindexed(indices, table), indices, table)
  {
    if indices != [] {
      var n := |indices| - 1;
      ReindexedRenumbers(indices[..n], table);
      RenumberStep(Reindexed(indices[..n], table), indices, table);
    }
  }

  lemma RenumberStep(before: seq<Cell>, indices: seq<int>, table: map<int, Content>)
    requires indices != [] && Renumbers(before, indices[..|indices| - 1], table)
    ensures indices[|indices| - 1] !in table ==> Renumbers(before, indices, table)
    ensures indices[|indices| - 1] in table ==>
      Renumbers(before + [Cell(|indices| - 1, table[indices[|indices| - 1]])], indices, table)
  {
    forall i | 0 <= i < |before| ensures before[i].index < |indices| - 1 {
      assert before[i] in before;
    }
  }

  /** The same as a map. */
  lemma ReindexedHolds(indices: seq<int>, table: map<int, Content>)
    ensures CellsAscend(Reindexed(indices, table))
    ensures forall k :: k in CellMap(Reindexed(indices, table)) <==> 0 <= k < |indices| && indices[k] in table
    ensures forall k :: k in CellMap(Reindexed(indices, table)) ==>
      CellMap(Reindexed(indices, table))[k] == table[indices[k]]
  {
    ReindexedRenumbers(indices, table);
    var cells := Reindexed(indices, table);
    forall k | k in CellMap(cells)
      ensures 0 <= k < |indices| && indices[k] in table && CellMap(cells)[k] == table[indices[k]]
    {
      CellMapMember(cells, k);
    }
    forall k | 0 <= k < |indices| && indices[k] in table ensures k in CellMap(cells) {
      var i :| 0 <= i < |cells| && cells[i] == Cell(k, table[indices[k]]);
      CellMapMember(cells, k);
    }
  }

  /** The selected product passes the limit before anything else goes wrong with it. */
  ghost predicate OverLimit(selection: seq<Axis>, maxCells: int) {
    SizeError(SizesOf(selection), maxCells, CellLimit(maxCells))
  }

  lemma OverLimitIsRefused(sizes: seq<int>, maxCells: int)
    requires SizeError(sizes, maxCells, CellLimit(maxCells))
    ensures sizes != [] && !Fits(sizes, maxCells)
  {
    var k :| 0 <= k < |sizes| && Fits(sizes[..k], maxCells) && FailsAt(sizes, k, maxCells, CellLimit(maxCells));
    FailsBefore(sizes, maxCells, k, |sizes|, CellLimit(maxCells));
    assert sizes[..|sizes|] == sizes;
  }

  lemma {:induction false} FirstOver(sizes: seq<int>, n: nat, limit: int)
    requires n <= |sizes| && Positive(sizes) && limit < Product(sizes[..n]) <= Product(sizes) <= MAX_INT64 && n > 0
    ensures SizeError(sizes, limit, CellLimit(limit))
  {
    ProductSplit(sizes, n - 1);
    if n > 1 && Product(sizes[..n - 1]) > limit {
      FirstOver(sizes, n - 1, limit);
    } else {
      assert Fits(sizes[..n - 1], limit);
      assert sizes[..n - 1 + 1] == sizes[..n];
      assert FailsAt(sizes, n - 1, limit, CellLimit(limit));
    }
  }

  /** A choice of stored categories is over the limit exactly when it has more cells. */
  lemma OverLimitIff(selection: seq<RequestDimension>, stored: seq<Dimension>, maxCells: int)
    requires WellFormed(AxesOf(stored)) && Count(AxesOf(stored)) <= MAX_INT64
    requires selection != [] && DimensionsChosen(selection, stored) && AllChosen(selection, stored)
    ensures NamesSelected(AxesOfRequest(selection), AxesOf(stored)) && OverLimit(AxesOfRequest(selection), maxCells)
            <==> Product(seq(|selection|, i requires 0 <= i < |selection| => |selection[i].categories|)) > maxCells
  {
    var request, axes := AxesOfRequest(selection), AxesOf(stored);
    var sizes := SizesOf(request);
    ChosenIsWithin(selection, stored);
    WithinIsSelected(request, axes);
    SizesPositive(request);
    CountAtMost(request, axes);
    assert sizes == seq(|selection|, i requires 0 <= i < |selection| => |selection[i].categories|);
    if Product(sizes) > maxCells {
      assert sizes[..|sizes|] == sizes;
      FirstOver(sizes, |sizes|, maxCells);
    }
    if OverLimit(request, maxCells) {
      OverLimitIsRefused(sizes, maxCells);
    }
  }

  method Query(selection: seq<RequestDimension>, stored: seq<Dimension>, table: map<int, Content>, maxCells: int)
    returns (r: Result<(seq<Dimension>, seq<Cell>), QueryError>)
    requires WellFormed(AxesOf(stored)) && WellPlaced(stored) && Count(AxesOf(stored)) <= MAX_INT64
    ensures r.Ok? <==> SelectionAccepted(AxesOfRequest(selection), AxesOf(stored), maxCells)
    ensures r.Ok? ==> r.value.0 == AnsweredDimensions(selection, stored)
    ensures r.Ok? ==>
      exists indices :: ListsSelection(selection, stored, indices) && r.value.1 == Reindexed(indices, table)
    ensures r == Err(LimitExceeded(maxCells)) <==>
            NamesSelected(AxesOfRequest(selection), AxesOf(stored)) && OverLimit(AxesOfRequest(selection), maxCells)
    ensures r.Err? ==> r.error == InvalidSelection || r.error == LimitExceeded(maxCells)
  {
    var resolved := ResolveSelection(selection, stored, maxCells);
    ghost var sizes := SizesOf(AxesOfRequest(selection));
    if OverLimit(AxesOfRequest(selection), maxCells) {
      OverLimitIsRefused(sizes, maxCells);
      if resolved.Err? && resolved.error.SelectionSize? {
        SizeErrorUnique(sizes, maxCells, resolved.error.product, CellLimit(maxCells));
      }
    }
    if resolved.Err? {
      if resolved.error.SelectionSize? && resolved.error.product.CellLimit? {
        return Err(LimitExceeded(resolved.error.product.limit));
      }
      return Err(InvalidSelection);
    }
    var (outputDimensions, internalIndices) := resolved.value;
    var storedCells, _ := FetchCells(internalIndices, table, QUERY_BATCH_SIZE);
    var outputCells := Reindex(internalIndices, storedCells, table);
    return Ok((outputDimensions, outputCells));
  }

  /** A payload's own structure is a selection that is accepted once the payload is stored. */
  lemma OwnStructureAccepted(provider: Bytes, dataset: Bytes, body: Body, normalize: Normalizer, maxCells: int,
                             r: Replacement)
    requires Accepted(provider, dataset, body, normalize, maxCells) && ParsedAs(provider, dataset, body, normalize, r)
    ensures StructureAccepted(body.id, body.dimension, normalize, MAX_INT64)
    ensures SelectionAccepted(AxesOfRequest(RequestOf(body, normalize)), AxesOf(r.dimensions), maxCells)
  {
    StoredIsCanonical(RequestOf(body, normalize));
    AcceptedIsWellFormed(body.id, body.dimension, normalize);
    FullSelectionAccepted(AxesOfRequest(RequestOf(body, normalize)), AxesOf(r.dimensions), maxCells);
  }

  /** The round trip. Storing a payload and querying it with the payload's own dimensions and categories, in the
      payload's order, is accepted, answers the payload's structure, looks cell r up where the remap put it, and returns
      exactly the payload's populated cells at their original indexes. */
  lemma ReplaceThenQuery(provider: Bytes, dataset: Bytes, body: Body, normalize: Normalizer, maxCells: int,
                         r: Replacement, indices: seq<int>)
    requires Accepted(provider, dataset, body, normalize, maxCells) && ParsedAs(provider, dataset, body, normalize, r)
    requires ListsSelection(RequestOf(body, normalize), r.dimensions, indices)
    ensures StructureAccepted(body.id, body.dimension, normalize, MAX_INT64)
    ensures SelectionAccepted(AxesOfRequest(RequestOf(body, normalize)), AxesOf(r.dimensions), maxCells)
    ensures AxesOf(AnsweredDimensions(RequestOf(body, normalize), r.dimensions))
            == AxesOfRequest(RequestOf(body, normalize))
    ensures |indices| == r.cellCount
    ensures CellsAscend(Reindexed(indices, CellMap(r.cells)))
    ensures CellMap(Reindexed(indices, CellMap(r.cells))) == RequestCells(body, r.cellCount)
  {
    var selection := RequestOf(body, normalize);
    var request, stored := AxesOfRequest(selection), AxesOf(r.dimensions);
    StoredIsCanonical(selection);
    OwnStructureAccepted(provider, dataset, body, normalize, maxCells, r);
    AcceptedIsWellFormed(body.id, body.dimension, normalize);
    AnswerIsSelection(selection, r.dimensions);
    ReindexedHolds(indices, CellMap(r.cells));
    RequestCellsInCube(body, r.cellCount);
    StoredCellsReadBack(selection, RequestCells(body, r.cellCount), r.cells, indices);
  }

  lemma FullSelectionAccepted(request: seq<Axis>, stored: seq<Axis>, maxCells: int)
    requires WellFormed(request) && WellFormed(stored) && SameCube(request, stored)
    requires request != [] && Fits(SizesOf(request), maxCells)
    ensures SelectionAccepted(request, stored, maxCells)
  {
    DistinctSize(KeysOf(request));
    DistinctSize(KeysOf(stored));
    forall i | 0 <= i < |request| ensures AxisSelected(request[i], stored) {
      KeyMember(request, request[i].key);
      KeyMember(stored, request[i].key);
      var j :| 0 <= j < |stored| && stored[j].key == request[i].key;
      assert Offers(stored[j], request[i]);
    }
  }

  lemma StoredCellsReadBack(selection: seq<RequestDimension>, cells: map<int, Content>, stored: seq<Cell>,
                            indices: seq<int>)
    requires WellFormed(AxesOfRequest(selection)) && StoredCells(selection, cells, stored)
    requires ListsSelection(selection, StoredDimensions(selection), indices)
    requires forall k :: k in cells ==> 0 <= k < Count(AxesOfRequest(selection))
    ensures DistinctIndexes(Reindexed(indices, CellMap(stored)))
    ensures CellMap(Reindexed(indices, CellMap(stored))) == cells
  {
    var request, axes := AxesOfRequest(selection), AxesOf(StoredDimensions(selection));
    StoredIsCanonical(selection);
    var origins := Origins(request, axes);
    forall k | 0 <= k < |indices| ensures 0 <= indices[k] < |origins| && origins[indices[k]] == k {
      RemapIsBijection(request, axes, k);
    }
    ReindexedHolds(indices, CellMap(stored));
    PulledReadBack(indices, origins, cells, CellMap(Reindexed(indices, CellMap(stored))));
  }

  lemma PulledReadBack(indices: seq<int>, origins: seq<int>, cells: map<int, Content>, output: map<int, Content>)
    requires forall k :: 0 <= k < |indices| ==> 0 <= indices[k] < |origins| && origins[indices[k]] == k
    requires forall k :: k in cells ==> 0 <= k < |indices|
    requires forall k :: k in output <==> 0 <= k < |indices| && indices[k] in Pulled(origins, cells)
    requires forall k :: k in output ==> output[k] == Pulled(origins, cells)[indices[k]]
    ensures output == cells
  {
    forall k | 0 <= k < |indices| ensures k in output <==> k in cells {
      assert indices[k] in Pulled(origins, cells) <==> origins[indices[k]] in cells;
    }
    forall k ensures k in output <==> k in cells {
      assert k in output ==> 0 <= k < |indices|;
    }
    forall k | k in output ensures output[k] == cells[k] {
      assert indices[k] in Pulled(origins, cells) && Pulled(origins, cells)[indices[k]] == cells[origins[indices[k]]];
    }
  }
}
