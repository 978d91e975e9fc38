/** internal/presentation/presentation.go: the dense and sparse encodings of a view. A response's channels have the same
    type as a payload's, since they are the same JSON. */
module Presentation {
  import opened Basics
  import opened Index
  import opened Model
  import opened Decimal
  import opened Naming
  import opened Structure
  import opened Channels
  import opened Remap

  /** Whole-dataset metadata, carried through unchanged. */
  datatype Summary = Summary(providerCode: Bytes, datasetCode: Bytes, sourceStamp: Bytes, cellCount: int,
                             valuedCount: int, nullCount: int)

  datatype View = View(summary: Summary, dimensions: seq<Dimension>, cells: seq<Cell>)

  datatype Data = Data(
    summary: Summary,
    id: seq<Bytes>,
    dimension: DimensionMap,
    value: Channel<Number>,
    text: Channel<Bytes>,
    status: Channel<Bytes>)

  datatype PresentationError = BadProduct(product: ProductError) | CellOutsideCube

  const RESPONSE_MAX_CELLS := 1_000_000

  // What a response has to carry.

  function NumericOf(content: Content): Option<Number> {
    content.numeric
  }

  function TextOf(content: Content): Option<Bytes> {
    content.text
  }

  function StatusOf(content: Content): Option<Bytes> {
    content.status
  }

  /** The partial function that one channel of a set of cells is. */
  ghost function Carried<V>(cells: map<int, Content>, channel: Content -> Option<V>): map<int, V> {
    map k | k in cells && channel(cells[k]).Some? :: channel(cells[k]).value
  }

  predicate CellsInside(cells: seq<Cell>, count: int) {
    forall i :: 0 <= i < |cells| ==> 0 <= cells[i].index < count
  }

  function EntryOf<V>(value: Option<V>): Entry<V> {
    if value.Some? then Value(value.value) else Null
  }

  // Dense lists.

  ghost predicate ListCarries<V>(list: seq<Entry<V>>, count: nat, cells: seq<Cell>, channel: Content -> Option<V>) {
    && |list| == count
    && (forall i :: 0 <= i < |cells| ==>
          0 <= cells[i].index < count && list[cells[i].index] == EntryOf(channel(cells[i].content)))
    && (forall k :: 0 <= k < count ==>
          !list[k].Malformed? && (list[k].Value? ==> exists i :: 0 <= i < |cells| && cells[i].index == k))
  }

  lemma ListStep<V>(list: seq<Entry<V>>, count: nat, cells: seq<Cell>, channel: Content -> Option<V>, cell: Cell)
    requires ListCarries(list, count, cells, channel) && DistinctIndexes(cells + [cell]) && 0 <= cell.index < count
    ensures ListCarries(list[cell.index := EntryOf(channel(cell.content))], count, cells + [cell], channel)
    ensures channel(cell.content).None? ==> ListCarries(list, count, cells + [cell], channel)
  {
    var more := cells + [cell];
    assert more[|cells|] == cell;
    forall i | 0 <= i < |cells| ensures cells[i].index != cell.index {
      assert more[i] == cells[i];
    }
    assert !list[cell.index].Value?;
    forall k | 0 <= k < count && list[k].Value? ensures exists i :: 0 <= i < |more| && more[i].index == k {
      var i :| 0 <= i < |cells| && cells[i].index == k;
      assert more[i].index == k;
    }
  }

  lemma EmptyList<V>(count: nat, cells: seq<Cell>, channel: Content -> Option<V>)
    requires CellsInside(cells, count) && forall i :: 0 <= i < |cells| ==> channel(cells[i].content).None?
    ensures ListCarries(seq(count, _ => Null), count, cells, channel)
  {
  }

  lemma CarriedAt<V>(cells: seq<Cell>, channel: Content -> Option<V>, k: int)
    requires DistinctIndexes(cells)
    ensures k in Carried(CellMap(cells), channel) <==>
            exists i :: 0 <= i < |cells| && cells[i].index == k && channel(cells[i].content).Some?
    ensures forall i :: 0 <= i < |cells| && cells[i].index == k && channel(cells[i].content).Some? ==>
      k in Carried(CellMap(cells), channel) && Carried(CellMap(cells), channel)[k] == channel(cells[i].content).value
  {
    CellMapMember(cells, k);
    if k in Carried(CellMap(cells), channel) {
      var i :| 0 <= i < |cells| && cells[i] == Cell(k, CellMap(cells)[k]);
    }
  }

  lemma ListAt<V>(list: seq<Entry<V>>, count: nat, cells: seq<Cell>, channel: Content -> Option<V>, k: nat)
    requires DistinctIndexes(cells) && ListCarries(list, count, cells, channel) && k < count
    ensures list[k].Value? <==> k in Carried(CellMap(cells), channel)
    ensures list[k].Value? ==> list[k].v == Carried(CellMap(cells), channel)[k]
  {
    CarriedAt(cells, channel, k);
    if list[k].Value? {
      var i :| 0 <= i < |cells| && cells[i].index == k;
    }
  }

  lemma ListDenotes<V>(list: seq<Entry<V>>, count: nat, cells: seq<Cell>, channel: Content -> Option<V>)
    requires DistinctIndexes(cells) && ListCarries(list, count, cells, channel)
    ensures DenseAccepted(list, count) && DenseValues(list) == Carried(CellMap(cells), channel)
  {
    var values, carried := DenseValues(list), Carried(CellMap(cells), channel);
    forall k ensures k in values <==> k in carried {
      if 0 <= k < count {
        ListAt(list, count, cells, channel, k);
      }
      CarriedAt(cells, channel, k);
    }
    forall k | k in values ensures values[k] == carried[k] {
      ListAt(list, count, cells, channel, k);
    }
  }

  // Sparse tables.

  ghost predicate TableCarries<V>(table: map<Bytes, Entry<V>>, count: nat, cells: seq<Cell>,
                                  channel: Content -> Option<V>)
  {
    && CellsInside(cells, count)
    && (forall i :: 0 <= i < |cells| && channel(cells[i].content).Some? ==>
         Print(cells[i].index) in table && table[Print(cells[i].index)] == Value(channel(cells[i].content).value))
    && (forall key :: key in table ==>
         exists i :: 0 <= i < |cells| && channel(cells[i].content).Some? && key == Print(cells[i].index))
  }

  lemma TableStep<V>(table: map<Bytes, Entry<V>>, count: nat, cells: seq<Cell>, channel: Content -> Option<V>,
                     cell: Cell)
    requires TableCarries(table, count, cells, channel) && DistinctIndexes(cells + [cell]) && 0 <= cell.index < count
    ensures channel(cell.content).None? ==> TableCarries(table, count, cells + [cell], channel)
    ensures channel(cell.content).Some? ==>
      TableCarries(table[Print(cell.index) := Value(channel(cell.content).value)], count, cells + [cell], channel)
  {
    var more := cells + [cell];
    assert more[|cells|] == cell;
    forall i | 0 <= i < |cells| ensures more[i] == cells[i] && Print(cells[i].index) != Print(cell.index) {
      if Print(cells[i].index) == Print(cell.index) {
        PrintInjective(cells[i].index, cell.index);
      }
    }
    forall key | key in table
      ensures exists i :: 0 <= i < |more| && channel(more[i].content).Some? && key == Print(more[i].index)
    {
      var i :| 0 <= i < |cells| && channel(cells[i].content).Some? && key == Print(cells[i].index);
      assert more[i] == cells[i];
    }
  }

  lemma TableAt<V>(table: map<Bytes, Entry<V>>, count: nat, cells: seq<Cell>, channel: Content -> Option<V>, k: nat)
    requires DistinctIndexes(cells) && TableCarries(table, count, cells, channel)
    ensures Print(k) in table <==> k in Carried(CellMap(cells), channel)
    ensures Print(k) in table ==> k < count && table[Print(k)] == Value(Carried(CellMap(cells), channel)[k])
  {
    CarriedAt(cells, channel, k);
    if Print(k) in table {
      var i :| 0 <= i < |cells| && channel(cells[i].content).Some? && Print(k) == Print(cells[i].index);
      PrintInjective(k, cells[i].index);
    }
  }

  lemma TableDenotes<V>(table: map<Bytes, Entry<V>>, count: nat, cells: seq<Cell>, channel: Content -> Option<V>)
    requires DistinctIndexes(cells) && TableCarries(table, count, cells, channel)
    ensures SparseAccepted(table, count) && SparseValues(table, count) == Carried(CellMap(cells), channel)
  {
    var values, carried := SparseValues(table, count), Carried(CellMap(cells), channel);
    forall key | key in table ensures table[key].Value? && IndexKey(key, count) {
      var i :| 0 <= i < |cells| && channel(cells[i].content).Some? && key == Print(cells[i].index);
      TableAt(table, count, cells, channel, cells[i].index);
    }
    forall k ensures k in values <==> k in carried {
      if k >= 0 {
        TableAt(table, count, cells, channel, k);
      }
      CarriedAt(cells, channel, k);
    }
    forall k | k in values ensures values[k] == carried[k] {
      TableAt(table, count, cells, channel, k);
    }
  }

  // The loops.

  ghost predicate NoneCarried<V>(cells: seq<Cell>, channel: Content -> Option<V>) {
    forall i :: 0 <= i < |cells| ==> channel(cells[i].content).None?
  }

  /** An optional dense channel: its list exists once some cell has needed it. */
  ghost predicate OptionalList<V>(has: bool, list: seq<Entry<V>>, count: nat, cells: seq<Cell>,
                                  channel: Content -> Option<V>)
  {
    && CellsInside(cells, count)
    && (has <==> !NoneCarried(cells, channel))
    && (has ==> ListCarries(list, count, cells, channel))
  }

  method PutOptional<V>(has: bool, list: seq<Entry<V>>, count: nat, ghost cells: seq<Cell>,
                        ghost channel: Content -> Option<V>, ghost cell: Cell, index: int, value: Option<V>)
    returns (has': bool, list': seq<Entry<V>>)
    requires index == cell.index && 0 <= index < count && value == channel(cell.content) && (has ==> |list| == count)
    ensures has' ==> |list'| == count
    ensures OptionalList(has, list, count, cells, channel) && DistinctIndexes(cells + [cell])
            ==> OptionalList(has', list', count, cells + [cell], channel)
  {
    has', list' := has, list;
    ghost var holds := OptionalList(has, list, count, cells, channel) && DistinctIndexes(cells + [cell]);
    assert forall i :: 0 <= i < |cells| ==> (cells + [cell])[i] == cells[i];
    assert (cells + [cell])[|cells|] == cell;
    if value.Some? {
      if !has {
        if holds {
          EmptyList(count, cells, channel);
        }
        list' := seq(count, _ => Null);
      }
      if holds {
        ListStep(list', count, cells, channel, cell);
      }
      list' := list'[index := Value(value.value)];
      has' := true;
    } else if has && holds {
      ListStep(list, count, cells, channel, cell);
    }
  }

  /** A response channel that carries what the cells hold: left out exactly when they hold nothing in it. */
  ghost predicate Encodes<V>(encoded: Channel<V>, dense: bool, count: nat, cells: seq<Cell>,
                             channel: Content -> Option<V>)
  {
    match encoded
    case Absent => NoneCarried(cells, channel)
    case Dense(list) => dense && ListCarries(list, count, cells, channel)
    case Sparse(table) => !dense && TableCarries(table, count, cells, channel)
    case _ => false
  }

  lemma EncodesDenotes<V>(encoded: Channel<V>, dense: bool, count: nat, cells: seq<Cell>, channel: Content -> Option<V>)
    requires DistinctIndexes(cells) && Encodes(encoded, dense, count, cells, channel)
    ensures Denoted(encoded, count) == Carried(CellMap(cells), channel)
    ensures encoded.Dense? ==> DenseAccepted(encoded.list, count)
    ensures encoded.Sparse? ==> SparseAccepted(encoded.table, count)
  {
    match encoded
    case Absent =>
      forall k ensures k !in Carried(CellMap(cells), channel) {
        CarriedAt(cells, channel, k);
      }
    case Dense(list) => ListDenotes(list, count, cells, channel);
    case Sparse(table) => TableDenotes(table, count, cells, channel);
  }

  datatype Encoding = Encoding(value: Channel<Number>, text: Channel<Bytes>, status: Channel<Bytes>)

  ghost predicate EncodesAll(e: Encoding, dense: bool, count: nat, cells: seq<Cell>) {
    && (e.value.Dense? <==> dense) && (e.value.Sparse? <==> !dense)
    && Encodes(e.value, dense, count, cells, NumericOf)
    && Encodes(e.text, dense, count, cells, TextOf) && (e.text.Absent? <==> NoneCarried(cells, TextOf))
    && Encodes(e.status, dense, count, cells, StatusOf) && (e.status.Absent? <==> NoneCarried(cells, StatusOf))
  }

  lemma DistinctPrefix(cells: seq<Cell>, i: nat)
    requires DistinctIndexes(cells) && i < |cells|
    ensures DistinctIndexes(cells[..i] + [cells[i]]) && cells[..i] + [cells[i]] == cells[..i + 1]
  {
  }

  /** Fails exactly on a cell outside the cube. On different cells the three arrays hold what the cells hold. */
  method DenseChannels(cells: seq<Cell>, count: nat) returns (r: Result<Encoding, PresentationError>)
    ensures r.Ok? <==> CellsInside(cells, count)
    ensures r.Ok? && DistinctIndexes(cells) ==> EncodesAll(r.value, true, count, cells)
    ensures r.Err? ==> r.error == CellOutsideCube
  {
    ghost var distinct := DistinctIndexes(cells);
    var values: seq<Entry<Number>> := seq(count, _ => Null);
    var texts: seq<Entry<Bytes>>, statuses: seq<Entry<Bytes>> := [], [];
    var hasText, hasStatus := false, false;
    for i := 0 to |cells|
      invariant CellsInside(cells[..i], count) && |values| == count
      invariant (hasText ==> |texts| == count) && (hasStatus ==> |statuses| == count)
      invariant distinct ==> ListCarries(values, count, cells[..i], NumericOf)
      invariant distinct ==> OptionalList(hasText, texts, count, cells[..i], TextOf)
      invariant distinct ==> OptionalList(hasStatus, statuses, count, cells[..i], StatusOf)
    {
      var cell := cells[i];
      assert cells[..i] + [cells[i]] == cells[..i + 1];
      if cell.index < 0 || cell.index >= count {
        return Err(CellOutsideCube);
      }
      if distinct {
        DistinctPrefix(cells, i);
        ListStep(values, count, cells[..i], NumericOf, cell);
      }
      values := values[cell.index := EntryOf(cell.content.numeric)];
      hasText, texts := PutOptional(hasText, texts, count, cells[..i], TextOf, cell, cell.index, cell.content.text);
      hasStatus, statuses := PutOptional(hasStatus, statuses, count, cells[..i], StatusOf, cell, cell.index,
                                         cell.content.status);
    }
    assert cells[..|cells|] == cells;
    return Ok(Encoding(Dense(values), if hasText then Dense(texts) else Absent,
                       if hasStatus then Dense(statuses) else Absent));
  }

  function Put<V>(table: map<Bytes, Entry<V>>, key: Bytes, value: Option<V>): map<Bytes, Entry<V>> {
    if value.Some? then table[key := Value(value.value)] else table
  }

  datatype Tables = Tables(values: map<Bytes, Entry<Number>>, texts: map<Bytes, Entry<Bytes>>,
                           statuses: map<Bytes, Entry<Bytes>>)

  function PutCell(t: Tables, key: Bytes, content: Content): Tables {
    Tables(Put(t.values, key, content.numeric), Put(t.texts, key, content.text), Put(t.statuses, key, content.status))
  }

  ghost predicate TablesCarry(t: Tables, count: nat, cells: seq<Cell>) {
    && TableCarries(t.values, count, cells, NumericOf)
    && TableCarries(t.texts, count, cells, TextOf)
    && TableCarries(t.statuses, count, cells, StatusOf)
  }

  lemma TablesStep(t: Tables, count: nat, cells: seq<Cell>, cell: Cell)
    requires TablesCarry(t, count, cells) && DistinctIndexes(cells + [cell]) && 0 <= cell.index < count
    ensures TablesCarry(PutCell(t, Print(cell.index), cell.content), count, cells + [cell])
  {
    TableStep(t.values, count, cells, NumericOf, cell);
    TableStep(t.texts, count, cells, TextOf, cell);
    TableStep(t.statuses, count, cells, StatusOf, cell);
  }

  method SparseChannels(cells: seq<Cell>, count: nat) returns (r: Result<Encoding, PresentationError>)
    ensures r.Ok? <==> CellsInside(cells, count)
    ensures r.Ok? && DistinctIndexes(cells) ==> EncodesAll(r.value, false, count, cells)
    ensures r.Err? ==> r.error == CellOutsideCube
  {
    ghost var distinct := DistinctIndexes(cells);
    var tables := Tables(map[], map[], map[]);
    for i := 0 to |cells|
      invariant CellsInside(cells[..i], count)
      invariant distinct ==> TablesCarry(tables, count, cells[..i])
    {
      var cell := cells[i];
      assert cells[..i] + [cells[i]] == cells[..i + 1];
      if cell.index < 0 || cell.index >= count {
        return Err(CellOutsideCube);
      }
      if distinct {
        DistinctPrefix(cells, i);
        TablesStep(tables, count, cells[..i], cell);
      }
      tables := PutCell(tables, Print(cell.index), cell.content);
    }
    assert cells[..|cells|] == cells;
    if distinct {
      TablesEncode(tables, count, cells);
    }
    return Ok(EncodingOf(tables));
  }

  /** A table without entries is left out, except that of the values. */
  function EncodingOf(t: Tables): Encoding {
    Encoding(Sparse(t.values), if |t.texts| > 0 then Sparse(t.texts) else Absent,
             if |t.statuses| > 0 then Sparse(t.statuses) else Absent)
  }

  lemma TablesEncode(t: Tables, count: nat, cells: seq<Cell>)
    requires DistinctIndexes(cells) && TablesCarry(t, count, cells)
    ensures EncodesAll(EncodingOf(t), false, count, cells)
  {
    EmptyTable(t.texts, count, cells, TextOf);
    EmptyTable(t.statuses, count, cells, StatusOf);
  }

  lemma EmptyTable<V>(table: map<Bytes, Entry<V>>, count: nat, cells: seq<Cell>, channel: Content -> Option<V>)
    requires TableCarries(table, count, cells, channel)
    ensures |table| == 0 <==> NoneCarried(cells, channel)
  {
    if table == map[] {
    } else {
      var key :| key in table;
    }
  }

  // sharedStatus.

  /** What the code looks at: a length and one pass over the rows. */
  ghost predicate Shared(cells: seq<Cell>, logicalCount: nat, s: Bytes) {
    |cells| >= logicalCount > 0 && forall i :: 0 <= i < |cells| ==> cells[i].content.status == Some(s)
  }

  method SharedStatus(cells: seq<Cell>, logicalCount: nat) returns (shared: Option<Bytes>)
    ensures forall s :: shared == Some(s) <==> Shared(cells, logicalCount, s)
  {
    if |cells| < logicalCount || logicalCount == 0 {
      return None;
    }
    var status: Bytes := [];
    for i := 0 to |cells|
      invariant i > 0 ==> forall j :: 0 <= j < i ==> cells[j].content.status == Some(status)
    {
      if cells[i].content.status.None? {
        return None;
      }
      if i == 0 {
        status := cells[i].content.status.value;
      } else if cells[i].content.status.value != status {
        assert cells[0].content.status != cells[i].content.status;
        return None;
      }
    }
    assert cells[0].content.status == Some(status);
    return Some(status);
  }

  /** Every logical cell of the cube carries status `s`. */
  ghost predicate AllCarry(cells: map<int, Content>, count: nat, s: Bytes) {
    forall k :: 0 <= k < count ==> k in cells && cells[k].status == Some(s)
  }

  lemma FullKeys(cells: seq<Cell>, count: nat)
    requires DistinctIndexes(cells) && CellsInside(cells, count) && |cells| >= count
    ensures CellMap(cells).Keys == Below(count)
  {
    CellMapSize(cells);
    SubsetOfSameSize(CellMap(cells).Keys, Below(count));
  }

  lemma AllCarryShared(cells: seq<Cell>, count: nat, s: Bytes)
    requires DistinctIndexes(cells) && CellsInside(cells, count) && count > 0 && AllCarry(CellMap(cells), count, s)
    ensures Shared(cells, count, s)
  {
    CellMapSize(cells);
    SubsetSize(Below(count), CellMap(cells).Keys);
    forall i | 0 <= i < |cells| ensures cells[i].content.status == Some(s) {
      CellMapAt(cells, i);
    }
  }

  /** What that pass means (pigeonhole): as many rows as logical cells, different and inside the cube, are all of
      them. */
  lemma SharedMeansAll(cells: seq<Cell>, count: nat, s: Bytes)
    requires DistinctIndexes(cells) && CellsInside(cells, count) && count > 0
    ensures Shared(cells, count, s) <==> AllCarry(CellMap(cells), count, s)
  {
    if AllCarry(CellMap(cells), count, s) {
      AllCarryShared(cells, count, s);
    }
    if Shared(cells, count, s) {
      FullKeys(cells, count);
      forall k | 0 <= k < count ensures k in CellMap(cells) && CellMap(cells)[k].status == Some(s) {
        assert k in Below(count);
        CellMapMember(cells, k);
      }
    }
  }

  // structure.

  ghost predicate DistinctSpellings(dimensions: seq<Dimension>) {
    && (forall i, j :: 0 <= i < j < |dimensions| ==> dimensions[i].code.spelling != dimensions[j].code.spelling)
    && (forall i :: 0 <= i < |dimensions| ==> DistinctCategorySpellings(dimensions[i]))
  }

  ghost predicate DistinctCategorySpellings(dimension: Dimension) {
    forall i, j :: 0 <= i < j < |dimension.categories| ==>
      dimension.categories[i].code.spelling != dimension.categories[j].code.spelling
  }

  /** The category index of a dimension: each spelling at its position, and nothing else. */
  ghost predicate IndexOf(index: CategoryIndex, dimension: Dimension) {
    && (forall j :: 0 <= j < |dimension.categories| ==>
          && dimension.categories[j].code.spelling in index
          && index[dimension.categories[j].code.spelling] == dimension.categories[j].position)
    && (forall s :: s in index ==>
          exists j :: 0 <= j < |dimension.categories| && dimension.categories[j].code.spelling == s)
  }

  ghost predicate StructureOf(id: seq<Bytes>, dimension: DimensionMap, dimensions: seq<Dimension>) {
    && |id| == |dimensions| && (forall i :: 0 <= i < |dimensions| ==> id[i] == dimensions[i].code.spelling)
    && (forall i :: 0 <= i < |dimensions| ==> id[i] in dimension && IndexOf(dimension[id[i]], dimensions[i]))
    && (forall s :: s in dimension ==> s in id)
  }

  lemma IndexStep(index: CategoryIndex, dimension: Dimension, j: nat)
    requires j < |dimension.categories| && DistinctCategorySpellings(dimension)
    requires IndexOf(index, dimension.(categories := dimension.categories[..j]))
    ensures IndexOf(index[dimension.categories[j].code.spelling := dimension.categories[j].position],
                    dimension.(categories := dimension.categories[..j + 1]))
  {
    var before, after := dimension.categories[..j], dimension.categories[..j + 1];
    assert after[j] == dimension.categories[j];
    forall k | 0 <= k < j
      ensures after[k] == before[k] && before[k].code.spelling != dimension.categories[j].code.spelling
    {
      assert dimension.categories[k].code.spelling != dimension.categories[j].code.spelling;
    }
  }

  method BuildIndex(dimension: Dimension) returns (index: CategoryIndex)
    ensures DistinctCategorySpellings(dimension) ==> IndexOf(index, dimension)
  {
    index := map[];
    for j := 0 to |dimension.categories|
      invariant DistinctCategorySpellings(dimension) ==>
        IndexOf(index, dimension.(categories := dimension.categories[..j]))
    {
      if DistinctCategorySpellings(dimension) {
        IndexStep(index, dimension, j);
      }
      index := index[dimension.categories[j].code.spelling := dimension.categories[j].position];
    }
    assert dimension.(categories := dimension.categories[..|dimension.categories|]) == dimension;
  }

  lemma StructureStep(id: seq<Bytes>, dimension: DimensionMap, dimensions: seq<Dimension>, i: nat, index: CategoryIndex)
    requires i < |dimensions| && DistinctSpellings(dimensions)
    requires StructureOf(id, dimension, dimensions[..i]) && IndexOf(index, dimensions[i])
    ensures StructureOf(id + [dimensions[i].code.spelling], dimension[dimensions[i].code.spelling := index],
                        dimensions[..i + 1])
  {
    var before, after := dimensions[..i], dimensions[..i + 1];
    assert after[i] == dimensions[i];
    forall k | 0 <= k < i ensures after[k] == before[k] && id[k] != dimensions[i].code.spelling {
      assert dimensions[k].code.spelling != dimensions[i].code.spelling;
    }
  }

  method BuildStructure(dimensions: seq<Dimension>) returns (id: seq<Bytes>, dimension: DimensionMap)
    ensures DistinctSpellings(dimensions) ==> StructureOf(id, dimension, dimensions)
  {
    id, dimension := [], map[];
    for i := 0 to |dimensions|
      invariant DistinctSpellings(dimensions) ==> StructureOf(id, dimension, dimensions[..i])
    {
      var index := BuildIndex(dimensions[i]);
      if DistinctSpellings(dimensions) {
        StructureStep(id, dimension, dimensions, i, index);
      }
      id := id + [dimensions[i].code.spelling];
      dimension := dimension[dimensions[i].code.spelling := index];
    }
    assert dimensions[..|dimensions|] == dimensions;
  }

  // DataResponse.

  /** A response that denotes the view: each channel, whatever its representation, is the partial function the cells
      hold; an optional channel is left out exactly when it is empty; status is one scalar exactly when every logical
      cell carries it; all that is no scalar has the form that was asked for. */
  ghost predicate Presents(data: Data, cells: seq<Cell>, count: nat, dense: bool)
    requires DistinctIndexes(cells)
  {
    && (data.value.Dense? <==> dense) && NumericAccepted(data.value, count)
    && Denoted(data.value, count) == Carried(CellMap(cells), NumericOf)
    && TextAccepted(data.text, count, dense) && (data.text.Absent? <==> NoneCarried(cells, TextOf))
    && Denoted(data.text, count) == Carried(CellMap(cells), TextOf)
    && StatusAccepted(data.status, count) && (data.status.Absent? <==> NoneCarried(cells, StatusOf))
    && StatusDenoted(data.status, count) == Carried(CellMap(cells), StatusOf)
    && (forall s :: data.status == Scalar(s) <==> AllCarry(CellMap(cells), count, s))
    && (data.status.Dense? ==> dense) && (data.status.Sparse? ==> !dense)
  }

  lemma EncodingPresents(data: Data, e: Encoding, shared: Option<Bytes>, cells: seq<Cell>, count: nat, dense: bool)
    requires DistinctIndexes(cells) && CellsInside(cells, count) && count > 0 && EncodesAll(e, dense, count, cells)
    requires forall s :: shared == Some(s) <==> Shared(cells, count, s)
    requires data.value == e.value && data.text == e.text
    requires data.status == if shared.Some? then Scalar(shared.value) else e.status
    ensures Presents(data, cells, count, dense)
  {
    EncodesDenotes(e.value, dense, count, cells, NumericOf);
    EncodesDenotes(e.text, dense, count, cells, TextOf);
    EncodesDenotes(e.status, dense, count, cells, StatusOf);
    forall s ensures data.status == Scalar(s) <==> AllCarry(CellMap(cells), count, s) {
      SharedMeansAll(cells, count, s);
    }
    if shared.Some? {
      ScalarDenotes(data.status, shared.value, cells, count);
    }
  }

  lemma ScalarDenotes(status: Channel<Bytes>, s: Bytes, cells: seq<Cell>, count: nat)
    requires DistinctIndexes(cells) && CellsInside(cells, count) && count > 0 && AllCarry(CellMap(cells), count, s)
    requires status == Scalar(s)
    ensures StatusDenoted(status, count) == Carried(CellMap(cells), StatusOf) && !NoneCarried(cells, StatusOf)
  {
    var carried := Carried(CellMap(cells), StatusOf);
    forall k | k in CellMap(cells) ensures 0 <= k < count {
      CellMapMember(cells, k);
    }
    assert 0 in CellMap(cells);
    CellMapMember(cells, 0);
  }

  /** No error on a view whose structure is a cube of at most a million cells and whose cells are inside it; then the
      response denotes exactly the view. */
  method DataResponse(view: View, dense: bool) returns (r: Result<Data, PresentationError>)
    ensures r.Ok? <==> view.dimensions != [] && Fits(SizesOf(AxesOf(view.dimensions)), RESPONSE_MAX_CELLS)
                       && CellsInside(view.cells, Count(AxesOf(view.dimensions)))
    ensures r.Ok? ==> r.value.summary == view.summary && Count(AxesOf(view.dimensions)) >= 0
    ensures r.Ok? && DistinctSpellings(view.dimensions) ==> StructureOf(r.value.id, r.value.dimension, view.dimensions)
    ensures r.Ok? && DistinctIndexes(view.cells) ==>
      Presents(r.value, view.cells, Count(AxesOf(view.dimensions)), dense)
  {
    var id, dimension := BuildStructure(view.dimensions);
    var sizes: seq<int> := [];
    for i := 0 to |view.dimensions|
      invariant sizes == SizesOf(AxesOf(view.dimensions))[..i]
    {
      sizes := sizes + [|view.dimensions[i].categories|];
    }
    assert SizesOf(AxesOf(view.dimensions))[..|view.dimensions|] == SizesOf(AxesOf(view.dimensions));
    var count := CheckedProduct(sizes, RESPONSE_MAX_CELLS);
    if count.Err? {
      return Err(BadProduct(count.error));
    }
    var encoding: Result<Encoding, PresentationError>;
    if dense {
      encoding := DenseChannels(view.cells, count.value);
    } else {
      encoding := SparseChannels(view.cells, count.value);
    }
    if encoding.Err? {
      return Err(encoding.error);
    }
    var shared := SharedStatus(view.cells, count.value);
    var status := if shared.Some? then Scalar(shared.value) else encoding.value.status;
    var data := Data(view.summary, id, dimension, encoding.value.value, encoding.value.text, status);
    if DistinctIndexes(view.cells) {
      EncodingPresents(data, encoding.value, shared, view.cells, count.value, dense);
    }
    return Ok(data);
  }
}
