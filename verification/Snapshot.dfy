/** GetData, loadStructure and loadAllCells (internal/store/postgres.go) on one committed snapshot, and what a reader
    can count on in any reachable state. */
module Snapshot {
  import opened Basics
  import opened Index
  import opened Model
  import opened Naming
  import opened Structure
  import opened Remap
  import opened Selection
  import opened Payload
  import opened PayloadLaws
  import opened Query
  import opened Presentation
  import opened ExportImport
  import opened Database
  import opened Protocol
  import opened Invariant
  import opened Safety
  import opened History
  import opened Answers

  predicate IncreasingKeys(order: seq<int>) {
    forall i, j :: 0 <= i < j < |order| ==> order[i] < order[j]
  }

  lemma {:induction false} Smallest(keys: set<int>) returns (k: int)
    requires keys != {}
    ensures k in keys && forall j :: j in keys ==> k <= j
  {
    var any := Inhabited(keys);
    var others := keys - {any};
    assert keys == others + {any};
    if others == {} {
      k := any;
    } else {
      var rest := Smallest(others);
      k := if any < rest then any else rest;
    }
  }

  /** `order by` an integer column that is unique among the rows. */
  method InOrder(keys: set<int>) returns (order: seq<int>)
    ensures IncreasingKeys(order) && forall k :: k in order <==> k in keys
  {
    order := [];
    var remaining := keys;
    while remaining != {}
      invariant IncreasingKeys(order) && remaining <= keys
      invariant forall k :: k in order <==> k in keys && k !in remaining
      invariant forall k, j :: k in order && j in remaining ==> k < j
      decreases |remaining|
    {
      ghost var least := Smallest(remaining);
      var k :| k in remaining && forall j :: j in remaining ==> k <= j;
      forall i | 0 <= i < |order| ensures order[i] < k {
        assert order[i] in order;
      }
      order := order + [k];
      remaining := remaining - {k};
    }
  }

  /** What an `order by` of these rows lists. */
  ghost predicate Orders(rows: map<int, Dimension>, order: seq<int>, dimensions: seq<Dimension>) {
    && IncreasingKeys(order) && (forall k :: k in order <==> k in rows) && |order| == |dimensions|
    && forall i :: 0 <= i < |order| ==> order[i] in rows && dimensions[i] == rows[order[i]]
  }

  /** The rows of a dataset, listed by position. */
  ghost predicate ListsByPosition(rows: map<int, Dimension>, dimensions: seq<Dimension>) {
    exists order :: Orders(rows, order, dimensions)
  }

  // storage.dimensions and storage.categories as they are read.

  datatype DimensionRow = DimensionRow(id: nat, code: Code)

  /** The dimension rows of every dataset, by position, and the category rows of every dimension id, by position. */
  datatype StructureTables = StructureTables(dimensions: Rows<DimensionRow>, categories: Rows<Category>)

  /** How the tables hold the dimensions of one dataset: every row has an id of its own, and its categories are the rows
      that refer to that id. */
  ghost predicate HoldRows(dimensions: map<int, DimensionRow>, categories: Rows<Category>, rows: map<int, Dimension>) {
    && dimensions.Keys == rows.Keys
    && (forall p, q :: p in dimensions && q in dimensions && dimensions[p].id == dimensions[q].id ==> p == q)
    && (forall p :: p in dimensions ==> HoldsRow(dimensions[p], RowsOf(categories, dimensions[p].id), p, rows[p]))
  }

  ghost predicate HoldsRow(row: DimensionRow, categories: map<int, Category>, p: int, dimension: Dimension) {
    row.code == dimension.code && dimension.position == p && categories == ByPosition(dimension.categories)
  }

  /** The dimensions in order, the first `n` with their categories and the next one with `m` of them. */
  ghost predicate Assembled(rows: map<int, Dimension>, order: seq<int>, dimensions: seq<Dimension>, n: nat, m: nat) {
    && |dimensions| == |order| && (forall i :: 0 <= i < |order| ==> order[i] in rows)
    && (forall i :: 0 <= i < n && i < |order| ==> dimensions[i] == rows[order[i]])
    && (n < |order| ==> m <= |rows[order[n]].categories|)
    && (n < |order| ==> dimensions[n] == rows[order[n]].(categories := rows[order[n]].categories[..m]))
    && (forall i :: n < i < |order| ==> dimensions[i] == rows[order[i]].(categories := []))
  }

  lemma AssembledCategory(rows: map<int, Dimension>, order: seq<int>, dimensions: seq<Dimension>, n: nat, m: nat)
    requires Assembled(rows, order, dimensions, n, m) && n < |order| && m < |rows[order[n]].categories|
    ensures var more := dimensions[n].categories + [rows[order[n]].categories[m]];
      Assembled(rows, order, dimensions[n := dimensions[n].(categories := more)], n, m + 1)
  {
    var categories := rows[order[n]].categories;
    assert categories[..m + 1] == categories[..m] + [categories[m]];
  }

  lemma AssembledDimension(rows: map<int, Dimension>, order: seq<int>, dimensions: seq<Dimension>, n: nat)
    requires n < |order| && order[n] in rows && Assembled(rows, order, dimensions, n, |rows[order[n]].categories|)
    ensures Assembled(rows, order, dimensions, n + 1, 0)
  {
    var categories := rows[order[n]].categories;
    assert categories[..|categories|] == categories;
    assert n + 1 < |order| ==> rows[order[n + 1]].categories[..0] == [];
  }

  /** What the first query leaves: the dimensions without categories, and where each id is. */
  method LoadDimensions(rows: map<int, DimensionRow>, order: seq<int>)
    returns (dimensions: seq<Dimension>, indexes: map<nat, nat>)
    requires IncreasingKeys(order) && forall i :: 0 <= i < |order| ==> order[i] in rows
    requires forall p, q :: p in rows && q in rows && rows[p].id == rows[q].id ==> p == q
    ensures |dimensions| == |order|
    ensures forall i :: 0 <= i < |order| ==> dimensions[i] == Dimension(rows[order[i]].code, order[i], [])
    ensures forall i :: 0 <= i < |order| ==> rows[order[i]].id in indexes && indexes[rows[order[i]].id] == i
  {
    dimensions, indexes := [], map[];
    for i := 0 to |order|
      invariant |dimensions| == i
      invariant forall j :: 0 <= j < i ==> dimensions[j] == Dimension(rows[order[j]].code, order[j], [])
      invariant forall j :: 0 <= j < i ==> rows[order[j]].id in indexes && indexes[rows[order[j]].id] == j
    {
      assert forall j :: 0 <= j < i ==> order[j] != order[i];
      indexes := indexes[rows[order[i]].id := |dimensions|];
      dimensions := dimensions + [Dimension(rows[order[i]].code, order[i], [])];
    }
  }

  /** The two queries of loadStructure: the dimensions by position, then the categories of all of them by dimension and
      category position, sorted back to their dimensions by id. No category refers to a dimension that was not
      loaded. */
  method LoadStructure(dimensionRows: map<int, DimensionRow>, categoryRows: Rows<Category>,
                       ghost rows: map<int, Dimension>)
    returns (dimensions: seq<Dimension>)
    requires HoldRows(dimensionRows, categoryRows, rows)
    ensures ListsByPosition(rows, dimensions)
  {
    var order := InOrder(dimensionRows.Keys);
    assert forall i :: 0 <= i < |order| ==> order[i] in order;
    var indexes: map<nat, nat>;
    dimensions, indexes := LoadDimensions(dimensionRows, order);
    for i := 0 to |order|
      invariant Assembled(rows, order, dimensions, i, 0)
    {
      ghost var dimension := rows[order[i]];
      var id := dimensionRows[order[i]].id;
      var categories := RowsOf(categoryRows, id);
      var positions := InOrder(categories.Keys);
      PositionsCount(dimension.categories, positions);
      for j := 0 to |positions|
        invariant Assembled(rows, order, dimensions, i, j)
      {
        var category := categories[positions[j]];
        if id !in indexes {
          assert false;
        }
        AssembledCategory(rows, order, dimensions, i, j);
        var index := indexes[id];
        dimensions := dimensions[index := dimensions[index].(categories := dimensions[index].categories + [category])];
      }
      AssembledDimension(rows, order, dimensions, i);
    }
    assert Orders(rows, order, dimensions);
  }

  lemma PositionsCount(categories: seq<Category>, positions: seq<int>)
    requires IncreasingKeys(positions) && forall k :: k in positions <==> k in ByPosition(categories)
    ensures |positions| == |categories|
    ensures forall j :: 0 <= j < |positions| ==>
      positions[j] in ByPosition(categories) && ByPosition(categories)[positions[j]] == categories[j]
  {
    forall k ensures k in positions <==> 0 <= k < |categories| {
      ByPositionKeys(categories, k);
    }
    CountingOrder(positions, |categories|);
    forall j | 0 <= j < |positions|
      ensures positions[j] in ByPosition(categories) && ByPosition(categories)[positions[j]] == categories[j]
    {
      ByPositionKeys(categories, j);
    }
  }

  method LoadAllCells(rows: map<int, Content>) returns (cells: seq<Cell>)
    ensures CellsAscend(cells) && CellMap(cells) == rows
  {
    var order := InOrder(rows.Keys);
    cells := [];
    for i := 0 to |order|
      invariant |cells| == i
      invariant forall j :: 0 <= j < i ==> order[j] in rows && cells[j] == Cell(order[j], rows[order[j]])
    {
      assert order[i] in order;
      cells := cells + [Cell(order[i], rows[order[i]])];
    }
    CellsHold(rows, order, cells);
  }

  lemma CellsHold(rows: map<int, Content>, order: seq<int>, cells: seq<Cell>)
    requires IncreasingKeys(order) && (forall k :: k in order <==> k in rows) && |cells| == |order|
    requires forall j :: 0 <= j < |cells| ==> order[j] in rows && cells[j] == Cell(order[j], rows[order[j]])
    ensures CellsAscend(cells) && CellMap(cells) == rows
  {
    forall k ensures k in CellMap(cells) <==> k in rows {
      CellHolds(rows, order, cells, k);
    }
    forall k | k in CellMap(cells) ensures CellMap(cells)[k] == rows[k] {
      CellHolds(rows, order, cells, k);
    }
  }

  lemma CellHolds(rows: map<int, Content>, order: seq<int>, cells: seq<Cell>, k: int)
    requires CellsAscend(cells) && (forall k :: k in order <==> k in rows) && |cells| == |order|
    requires forall j :: 0 <= j < |cells| ==> order[j] in rows && cells[j] == Cell(order[j], rows[order[j]])
    ensures k in CellMap(cells) <==> k in rows
    ensures k in rows ==> k in CellMap(cells) && CellMap(cells)[k] == rows[k]
  {
    if k in CellMap(cells) {
      var i :| 0 <= i < |cells| && cells[i].index == k;
      assert order[i] in rows;
    }
    if k in rows {
      assert k in order;
      var i :| 0 <= i < |order| && order[i] == k;
      CellMapAt(cells, i);
    }
  }

  function SummaryIn(db: Db, i: Identity, d: nat): Summary
    requires i.provider in db.providers && d in db.datasets
  {
    var row := db.datasets[d];
    SummaryOf(db.providers[i.provider].spelling, row.spelling, row.stamp, row.cellCount, row.valuedCount)
  }

  /** A view of the dataset row d of identity i: its summary, structure and cells, all from one snapshot. */
  ghost predicate ViewOf(db: Db, i: Identity, d: nat, view: View) {
    && RowOfIdentity(db, i, d)
    && view.summary == SummaryIn(db, i, d)
    && ListsByPosition(RowsOf(db.dimensions, d), view.dimensions)
    && CellsAscend(view.cells) && CellMap(view.cells) == RowsOf(db.observations, d)
  }

  /** ErrNotFound, or an error of the statement: a key that is not UTF-8 or has a byte 0 is no text parameter. */
  datatype ReadError = NotFound | ParameterRefused

  predicate Askable(i: Identity) {
    TextHolds(i.provider) && TextHolds(i.dataset)
  }

  /** The tables hold the dimensions of every dataset. */
  ghost predicate Stored(tables: StructureTables, db: Db) {
    forall d :: d in db.datasets ==> HoldRows(RowsOf(tables.dimensions, d), tables.categories, RowsOf(db.dimensions, d))
  }

  ghost predicate HasRow(db: Db, i: Identity) {
    exists d :: RowOfIdentity(db, i, d)
  }

  /** getSummaryAndID: the join of providers and datasets. */
  method GetSummaryAndId(db: Db, i: Identity) returns (r: Result<(Summary, nat), ReadError>)
    ensures r == Err(ParameterRefused) <==> !Askable(i)
    ensures r.Ok? <==> Askable(i) && HasRow(db, i)
    ensures r.Ok? ==> RowOfIdentity(db, i, r.value.1) && r.value.0 == SummaryIn(db, i, r.value.1)
  {
    if !Askable(i) {
      return Err(ParameterRefused);
    }
    if i.provider !in db.providers {
      return Err(NotFound);
    }
    var id := db.providers[i.provider].id;
    if !(exists d :: d in db.datasets && db.datasets[d].providerId == id && db.datasets[d].key == i.dataset) {
      return Err(NotFound);
    }
    var d :| d in db.datasets && db.datasets[d].providerId == id && db.datasets[d].key == i.dataset;
    assert RowOfIdentity(db, i, d);
    return Ok((SummaryIn(db, i, d), d));
  }

  method GetData(db: Db, tables: StructureTables, i: Identity) returns (r: Result<View, ReadError>)
    requires Stored(tables, db)
    ensures r == Err(ParameterRefused) <==> !Askable(i)
    ensures r.Ok? <==> Askable(i) && HasRow(db, i)
    ensures r.Ok? ==> exists d :: ViewOf(db, i, d, r.value)
  {
    var found := GetSummaryAndId(db, i);
    if found.Err? {
      return Err(found.error);
    }
    var (summary, d) := found.value;
    var dimensions := LoadStructure(RowsOf(tables.dimensions, d), tables.categories, RowsOf(db.dimensions, d));
    var cells := LoadAllCells(RowsOf(db.observations, d));
    r := Ok(View(summary, dimensions, cells));
    assert ViewOf(db, i, d, r.value);
  }

  lemma LastOfCounting(order: seq<int>, n: nat)
    requires IncreasingKeys(order) && (forall k :: k in order <==> 0 <= k < n) && n > 0
    ensures order != [] && order[|order| - 1] == n - 1
  {
    assert n - 1 in order;
    var j :| 0 <= j < |order| && order[j] == n - 1;
    assert order[|order| - 1] in order;
  }

  lemma InitOfIncreasing(order: seq<int>, k: int)
    requires IncreasingKeys(order) && order != []
    ensures k in order[..|order| - 1] <==> k in order && k != order[|order| - 1]
  {
    var last := |order| - 1;
    if k in order && k != order[last] {
      var j :| 0 <= j < |order| && order[j] == k;
      assert order[..last][j] == k;
    }
  }

  lemma FirstIn(order: seq<int>) returns (k: int)
    requires order != []
    ensures k in order
  {
    k := order[0];
  }

  lemma OrderSnoc(order: seq<int>, n: nat)
    requires |order| == n + 1 && order[n] == n && forall i :: 0 <= i < n ==> order[..n][i] == i
    ensures forall i :: 0 <= i < n + 1 ==> order[i] == i
  {
    forall i | 0 <= i < n + 1 ensures order[i] == i {
      assert i < n ==> order[..n][i] == i;
    }
  }

  lemma {:induction false} CountingOrder(order: seq<int>, n: nat)
    requires IncreasingKeys(order) && forall k :: k in order <==> 0 <= k < n
    ensures |order| == n && forall i :: 0 <= i < n ==> order[i] == i
  {
    if n == 0 {
      if order != [] {
        var k := FirstIn(order);
        assert false;
      }
    } else {
      LastOfCounting(order, n);
      var init := order[..|order| - 1];
      forall k | k in init ensures 0 <= k < n - 1 {
        InitOfIncreasing(order, k);
        assert k in order;
      }
      forall k | 0 <= k < n - 1 ensures k in init {
        assert k in order;
        InitOfIncreasing(order, k);
      }
      CountingOrder(init, n - 1);
      OrderSnoc(order, n - 1);
    }
  }

  lemma ByPositionKeys<T>(list: seq<T>, k: int)
    ensures k in ByPosition(list) <==> 0 <= k < |list|
    ensures k in ByPosition(list) ==> ByPosition(list)[k] == list[k]
  {
  }

  lemma OrderReadBack(dimensions: seq<Dimension>, order: seq<int>, loaded: seq<Dimension>)
    requires Orders(ByPosition(dimensions), order, loaded)
    ensures loaded == dimensions
  {
    forall k ensures k in order <==> 0 <= k < |dimensions| {
      ByPositionKeys(dimensions, k);
    }
    CountingOrder(order, |dimensions|);
    forall i | 0 <= i < |order| ensures loaded[i] == dimensions[i] {
      ByPositionKeys(dimensions, i);
    }
  }

  /** Reading back the stored rows of a structure gives that structure. */
  lemma StructureReadBack(dimensions: seq<Dimension>, loaded: seq<Dimension>)
    requires ListsByPosition(ByPosition(dimensions), loaded)
    ensures loaded == dimensions
  {
    var order :| Orders(ByPosition(dimensions), order, loaded);
    OrderReadBack(dimensions, order, loaded);
  }

  // What a reader can count on in any reachable state.

  /** The replacement in force for an identity. */
  ghost function InForce(s: State, i: Identity): Entry
    requires i in Replay(s.log).datasets
  {
    Replay(s.log).datasets[i]
  }

  /** A state that some interleaving reaches. */
  ghost predicate Reachable(setting: Setting, events: seq<Event>, s: State) {
    Run(Initial(setting), events) == Some(s)
  }

  ghost predicate Summarizes(summary: Summary, s: State, i: Identity)
    requires i in Replay(s.log).datasets && i.provider in Replay(s.log).providers
  {
    var e, jsonb := InForce(s, i), s.world.setting.jsonb;
    && e.r.sourceStamp in jsonb
    && Tells(summary, Replay(s.log).providers[i.provider], e.spelling, jsonb[e.r.sourceStamp], e.r)
  }

  lemma InForceHolds(setting: Setting, events: seq<Event>, s: State, i: Identity)
    requires Reachable(setting, events, s) && i in Replay(s.log).datasets
    ensures i.provider in Replay(s.log).providers && Askable(i)
    ensures Submitted(setting, Replace(InForce(s, i).r)) && IdentityOf(Replace(InForce(s, i).r)) == i
    ensures CodedBy(Code(Replay(s.log).providers[i.provider], i.provider), setting.normalize)
    ensures CodedBy(Code(InForce(s, i).spelling, i.dataset), setting.normalize)
    ensures ContentsHold(setting, InForce(s, i).r)
    ensures CodeHolds(Code(Replay(s.log).providers[i.provider], i.provider))
    ensures CodeHolds(Code(InForce(s, i).spelling, i.dataset))
    ensures HasRow(s.world.db, i) && s.world.setting == setting
  {
    InitialOk(setting);
    RunOk(Initial(setting), events);
    SettingStays(Initial(setting), events);
    assert EntryOk(s.world, i) && EntryHeld(s.world, i);
    assert ProviderFaithful(s.world, i.provider, s.world.db.providers[i.provider]);
    IdentityHasRow(s.world, i, InForce(s, i).id);
    assert RowOfIdentity(s.world.db, i, InForce(s, i).id);
  }

  lemma InForceSummary(setting: Setting, events: seq<Event>, s: State, i: Identity)
    requires Reachable(setting, events, s) && i in Replay(s.log).datasets
    ensures i.provider in Replay(s.log).providers
    ensures var e := InForce(s, i);
      Summarizes(SummaryOf(Replay(s.log).providers[i.provider], e.spelling,
                           Respelled(setting.jsonb, e.r.sourceStamp), e.r.cellCount, e.r.valuedCount), s, i)
  {
    InForceHolds(setting, events, s, i);
    var e := InForce(s, i);
    SummaryTells(Replay(s.log).providers[i.provider], e.spelling, Respelled(setting.jsonb, e.r.sourceStamp), e.r);
  }

  /** A reader gets exactly one submitted replacement, never a mixture: the view is the serial history's entry. */
  lemma ViewIsOneReplacement(setting: Setting, events: seq<Event>, s: State, i: Identity, d: nat, view: View)
    requires Reachable(setting, events, s) && ViewOf(s.world.db, i, d, view)
    ensures i in Replay(s.log).datasets && i.provider in Replay(s.log).providers
    ensures view.dimensions == InForce(s, i).r.dimensions
    ensures view.cells == InForce(s, i).r.cells && Summarizes(view.summary, s, i)
  {
    InitialOk(setting);
    RunOk(Initial(setting), events);
    IdentityHasRow(s.world, i, d);
    var r := s.world.catalog.datasets[i].r;
    HeldExactly(s.world, i);
    assert ProviderFaithful(s.world, i.provider, s.world.db.providers[i.provider]);
    StructureReadBack(r.dimensions, view.dimensions);
    AscendingCellsUnique(view.cells, r.cells);
    InForceSummary(setting, events, s, i);
  }

  /** Such a view meets what Query requires, and DataResponse takes no error return on it. */
  lemma StoredFits(r: Replacement)
    requires WellFormedReplacement(r, SCHEMA_MAX_CELLS)
    ensures r.dimensions != [] && WellFormed(AxesOf(r.dimensions)) && WellPlaced(r.dimensions)
    ensures r.cellCount == Count(AxesOf(r.dimensions)) && Fits(SizesOf(AxesOf(r.dimensions)), RESPONSE_MAX_CELLS)
    ensures CellsInside(r.cells, r.cellCount) && DistinctIndexes(r.cells) && KeysAscend(r.dimensions)
  {
    SortedAscends(r.dimensions);
    SortedIsWellFormed(AxesOf(r.dimensions));
    SizesPositive(AxesOf(r.dimensions));
  }

  lemma StoredIsView(r: Replacement, normalize: Normalizer)
    requires WellFormedReplacement(r, SCHEMA_MAX_CELLS) && WellCodedReplacement(r, normalize)
    ensures StoredView(r.dimensions, r.cells, normalize) && DistinctSpellings(r.dimensions)
  {
    ReplacementIsStoredView(r, normalize, SCHEMA_MAX_CELLS);
    ViewSpellingsDiffer(r.dimensions, r.cells, normalize);
  }

  /** What a response says about the replacement in force. */
  ghost predicate Responds(data: Data, s: State, i: Identity, dense: bool)
    requires i in Replay(s.log).datasets && i.provider in Replay(s.log).providers
  {
    var r := InForce(s, i).r;
    && Summarizes(data.summary, s, i) && StructureOf(data.id, data.dimension, r.dimensions)
    && DistinctIndexes(r.cells) && r.cellCount >= 0 && Presents(data, r.cells, r.cellCount, dense)
  }

  /** GET of a dataset's data in any reachable state: not found exactly when the dataset does not exist in the serial
      history, and otherwise a response, never an error, with the summary, the structure and the cells of the
      replacement in force. */
  method Download(db: Db, tables: StructureTables, i: Identity, dense: bool, ghost setting: Setting,
                  ghost events: seq<Event>, ghost s: State)
    returns (data: Result<Data, ReadError>)
    requires Reachable(setting, events, s) && s.world.db == db && Stored(tables, db)
    ensures data == Err(ParameterRefused) <==> !Askable(i)
    ensures data.Ok? <==> i in Replay(s.log).datasets
    ensures data.Ok? ==> i.provider in Replay(s.log).providers && Responds(data.value, s, i, dense)
  {
    if i in Replay(s.log).datasets {
      InForceHolds(setting, events, s, i);
    }
    var view := GetData(db, tables, i);
    if view.Err? {
      return Err(view.error);
    }
    ghost var d :| ViewOf(db, i, d, view.value);
    ViewIsOneReplacement(setting, events, s, i, d, view.value);
    InForceHolds(setting, events, s, i);
    ghost var r := InForce(s, i).r;
    StoredFits(r);
    StoredIsView(r, setting.normalize);
    var response := DataResponse(view.value, dense);
    return Ok(response.value);
  }

  /** A replacement by what was downloaded: everything is as it was, the stamp perhaps in another spelling. */
  ghost predicate Restores(r: Replacement, e: Replacement, jsonb: Jsonb) {
    && r.provider.key == e.provider.key && r.dataset.key == e.dataset.key
    && r.dimensions == e.dimensions && r.cells == e.cells
    && r.cellCount == e.cellCount && r.valuedCount == e.valuedCount
    && e.sourceStamp in jsonb && r.sourceStamp in jsonb && jsonb[r.sourceStamp] == jsonb[e.sourceStamp]
  }

  /** What the parser returns for a download. */
  lemma ReimportRestores(data: Data, s: State, i: Identity, dense: bool, setting: Setting, replace: bool, stamp: Bytes,
                         maxCells: int)
    requires i in Replay(s.log).datasets && i.provider in Replay(s.log).providers && Responds(data, s, i, dense)
    requires Submitted(setting, Replace(InForce(s, i).r)) && IdentityOf(Replace(InForce(s, i).r)) == i
    requires InForce(s, i).r.sourceStamp in setting.jsonb && stamp in setting.jsonb
    requires setting.jsonb[stamp] == setting.jsonb[InForce(s, i).r.sourceStamp]
    requires CodedBy(Code(data.summary.providerCode, i.provider), setting.normalize)
    requires CodedBy(Code(data.summary.datasetCode, i.dataset), setting.normalize)
    requires InForce(s, i).r.cellCount <= maxCells
    ensures Accepted(data.summary.providerCode, data.summary.datasetCode, Reimport(data, replace, stamp),
                     setting.normalize, maxCells)
    ensures var provider, dataset := data.summary.providerCode, data.summary.datasetCode;
      forall r :: ParsedAs(provider, dataset, Reimport(data, replace, stamp), setting.normalize, r) ==>
        Restores(r, InForce(s, i).r, setting.jsonb)
  {
    var e := InForce(s, i).r;
    StoredFits(e);
    StoredIsView(e, setting.normalize);
    ExportThenImport(View(data.summary, e.dimensions, e.cells), data, dense, setting.normalize,
                     data.summary.providerCode, data.summary.datasetCode, replace, stamp, maxCells);
  }

  /** The whole circle, in any reachable state: a downloaded dataset is accepted as a replacement under its own
      spellings, and what comes out of the parser restores the replacement in force and is refused in no run. `written`
      is how the stamp travels: encoding/json may leave out spaces, but writes the same JSON value. */
  method DownloadAndParse(db: Db, tables: StructureTables, i: Identity, dense: bool, replace: bool, maxCells: int,
                          written: Bytes -> Bytes, setting: Setting, ghost events: seq<Event>, ghost s: State)
    returns (r: Result<Replacement, ReadError>)
    requires Reachable(setting, events, s) && s.world.db == db && Stored(tables, db)
    requires i in Replay(s.log).datasets ==> InForce(s, i).r.cellCount <= maxCells <= SCHEMA_MAX_CELLS
    requires forall stamp :: Respells(setting.jsonb, stamp, written(stamp))
    ensures r.Ok? <==> i in Replay(s.log).datasets
    ensures r.Ok? ==> Restores(r.value, InForce(s, i).r, setting.jsonb) && r.value.replace == replace
    ensures r.Ok? ==> Submitted(setting, Replace(r.value)) && AlwaysHeld(setting, Replace(r.value))
  {
    var data := Download(db, tables, i, dense, setting, events, s);
    if data.Err? {
      return Err(data.error);
    }
    InForceHolds(setting, events, s, i);
    var summary := data.value.summary;
    var stamp := written(summary.sourceStamp);
    assert Respells(setting.jsonb, summary.sourceStamp, stamp);
    var body := Reimport(data.value, replace, stamp);
    ReimportRestores(data.value, s, i, dense, setting, replace, stamp, maxCells);
    var parsed := ParseReplacement(summary.providerCode, summary.datasetCode, body, setting.normalize, maxCells);
    AcceptedIsStorable(summary.providerCode, summary.datasetCode, body, setting.normalize, maxCells, parsed.value);
    return Ok(parsed.value);
  }

  /** Storing it again changes nothing but the time: the answer is the summary that was downloaded, and the dataset
      keeps its id, its spelling and every row. */
  lemma RestoredIsUnchanged(setting: Setting, events: seq<Event>, s: State, i: Identity, r: Replacement, id: nat)
    requires Reachable(setting, events, s) && i in Replay(s.log).datasets
    requires r.replace && Restores(r, InForce(s, i).r, setting.jsonb)
    ensures i.provider in Replay(s.log).providers
    ensures var catalog := Replay(s.log);
      var after := Perform(catalog, Replace(r), id);
      && after.providers == catalog.providers && after.datasets.Keys == catalog.datasets.Keys
      && (forall j :: j in catalog.datasets && j != i ==> after.datasets[j] == catalog.datasets[j])
      && after.datasets[i] == Entry(InForce(s, i).id, InForce(s, i).spelling, r)
      && RowFor(setting, 0, i.dataset, InForce(s, i).spelling, r)
         == RowFor(setting, 0, i.dataset, InForce(s, i).spelling, InForce(s, i).r)
    ensures Answer(setting, Replay(s.log), Replace(r)).Stored? && !Answer(setting, Replay(s.log), Replace(r)).created
    ensures Summarizes(Answer(setting, Replay(s.log), Replace(r)).summary, s, i)
  {
    InForceHolds(setting, events, s, i);
    InForceSummary(setting, events, s, i);
  }

  datatype FetchError = NotRead(read: ReadError) | NotQueried(query: QueryError)

  /** Query in any reachable state: not found exactly when the dataset does not exist in the serial history; otherwise
      decided by the selection alone, and answered from the replacement in force. */
  method Fetch(db: Db, tables: StructureTables, i: Identity, selection: seq<RequestDimension>, maxCells: int,
               ghost setting: Setting, ghost events: seq<Event>, ghost s: State)
    returns (r: Result<View, FetchError>)
    requires Reachable(setting, events, s) && s.world.db == db && Stored(tables, db)
    ensures r.Err? && r.error.NotRead? <==> i !in Replay(s.log).datasets
    ensures r == Err(NotRead(ParameterRefused)) <==> !Askable(i)
    ensures i in Replay(s.log).datasets ==>
      var stored := InForce(s, i).r.dimensions;
      && (r.Ok? <==> SelectionAccepted(AxesOfRequest(selection), AxesOf(stored), maxCells))
      && (r == Err(NotQueried(LimitExceeded(maxCells))) <==>
          NamesSelected(AxesOfRequest(selection), AxesOf(stored)) && OverLimit(AxesOfRequest(selection), maxCells))
    ensures r.Ok? ==>
      i in Replay(s.log).datasets && i.provider in Replay(s.log).providers && Summarizes(r.value.summary, s, i)
    ensures r.Ok? ==> AnswersQuery(r.value, selection, InForce(s, i).r)
  {
    if i in Replay(s.log).datasets {
      InForceHolds(setting, events, s, i);
    }
    var found := GetSummaryAndId(db, i);
    if found.Err? {
      return Err(NotRead(found.error));
    }
    var (summary, d) := found.value;
    var stored := LoadStructure(RowsOf(tables.dimensions, d), tables.categories, RowsOf(db.dimensions, d));
    ghost var cells := CellsOf(setting, events, s, i, d, summary, stored);
    InForceHolds(setting, events, s, i);
    StoredFits(InForce(s, i).r);
    var answer := Query.Query(selection, stored, RowsOf(db.observations, d), maxCells);
    if answer.Err? {
      return Err(NotQueried(answer.error));
    }
    return Ok(View(summary, answer.value.0, answer.value.1));
  }

  /** The answered structure, and the replacement's cells at the selected indexes, renumbered. */
  ghost predicate AnswersQuery(view: View, selection: seq<RequestDimension>, r: Replacement) {
    && CellsAscend(r.cells) && view.dimensions == AnsweredDimensions(selection, r.dimensions)
    && exists indices :: ListsSelection(selection, r.dimensions, indices)
         && view.cells == Reindexed(indices, CellMap(r.cells))
  }

  lemma AnswersPayload(view: View, provider: Bytes, dataset: Bytes, body: Body, normalize: Normalizer, maxCells: int,
                       r: Replacement)
    requires Accepted(provider, dataset, body, normalize, maxCells) && ParsedAs(provider, dataset, body, normalize, r)
    requires AnswersQuery(view, RequestOf(body, normalize), r)
    ensures AxesOf(view.dimensions) == AxesOfRequest(RequestOf(body, normalize))
    ensures CellsAscend(view.cells) && CellMap(view.cells) == RequestCells(body, r.cellCount)
  {
    var selection := RequestOf(body, normalize);
    var indices :| ListsSelection(selection, r.dimensions, indices)
      && view.cells == Reindexed(indices, CellMap(r.cells));
    ReplaceThenQuery(provider, dataset, body, normalize, maxCells, r, indices);
  }

  /** The round trip in any reachable state: while a payload is in force, a query with the payload's own structure finds
      every cell of the payload at the index where the payload had it, and nothing else. */
  method FetchPayload(db: Db, tables: StructureTables, i: Identity, body: Body, maxCells: int, setting: Setting,
                      ghost provider: Bytes, ghost dataset: Bytes, ghost events: seq<Event>, ghost s: State)
    returns (r: Result<View, FetchError>)
    requires Reachable(setting, events, s) && s.world.db == db && Stored(tables, db)
    requires i in Replay(s.log).datasets && Accepted(provider, dataset, body, setting.normalize, maxCells)
    requires ParsedAs(provider, dataset, body, setting.normalize, InForce(s, i).r)
    ensures r.Ok? && i.provider in Replay(s.log).providers && Summarizes(r.value.summary, s, i)
    ensures AxesOf(r.value.dimensions) == AxesOfRequest(RequestOf(body, setting.normalize))
    ensures CellsAscend(r.value.cells)
    ensures CellMap(r.value.cells) == RequestCells(body, InForce(s, i).r.cellCount)
  {
    var selection := ParseSelection(body.id, body.dimension, setting.normalize);
    OwnStructureAccepted(provider, dataset, body, setting.normalize, maxCells, InForce(s, i).r);
    r := Fetch(db, tables, i, selection.value, maxCells, setting, events, s);
    AnswersPayload(r.value, provider, dataset, body, setting.normalize, maxCells, InForce(s, i).r);
  }

  lemma CellsOf(setting: Setting, events: seq<Event>, s: State, i: Identity, d: nat, summary: Summary,
                stored: seq<Dimension>)
    returns (cells: seq<Cell>)
    requires Reachable(setting, events, s) && RowOfIdentity(s.world.db, i, d) && summary == SummaryIn(s.world.db, i, d)
    requires ListsByPosition(RowsOf(s.world.db.dimensions, d), stored)
    ensures i in Replay(s.log).datasets && i.provider in Replay(s.log).providers && Summarizes(summary, s, i)
    ensures cells == InForce(s, i).r.cells && stored == InForce(s, i).r.dimensions
    ensures CellsAscend(cells) && RowsOf(s.world.db.observations, d) == CellMap(cells)
  {
    InitialOk(setting);
    RunOk(Initial(setting), events);
    IdentityHasRow(s.world, i, d);
    HeldExactly(s.world, i);
    cells := InForce(s, i).r.cells;
    ViewIsOneReplacement(setting, events, s, i, d, View(summary, stored, cells));
  }

  // Such tables exist in every reachable state, with one id for each dimension row of all datasets.

  function IdFor(d: nat, p: nat): nat {
    d * MAX_DIMENSIONS + p
  }

  lemma IdTells(d: nat, p: nat)
    requires p < MAX_DIMENSIONS
    ensures IdFor(d, p) / MAX_DIMENSIONS == d && IdFor(d, p) % MAX_DIMENSIONS == p
  {
  }

  ghost predicate AtPositions(rows: map<int, Dimension>) {
    forall p :: p in rows ==> 0 <= p < MAX_DIMENSIONS && rows[p].position == p
  }

  ghost predicate AllAtPositions(db: Db) {
    forall d :: d in db.dimensions ==> AtPositions(db.dimensions[d])
  }

  ghost function DimensionTable(d: nat, rows: map<int, Dimension>): map<int, DimensionRow>
    requires AtPositions(rows)
  {
    map p | p in rows :: DimensionRow(IdFor(d, p), rows[p].code)
  }

  ghost function Ids(db: Db): set<nat>
    requires AllAtPositions(db)
  {
    set d, p | d in db.dimensions && p in db.dimensions[d] :: IdFor(d, p)
  }

  /** The dimension row with this id. */
  ghost predicate HasId(db: Db, id: nat) {
    id / MAX_DIMENSIONS in db.dimensions && id % MAX_DIMENSIONS in db.dimensions[id / MAX_DIMENSIONS]
  }

  ghost function CategoryTable(db: Db): Rows<Category>
    requires AllAtPositions(db)
  {
    map id | id in Ids(db) && HasId(db, id) ::
      ByPosition(db.dimensions[id / MAX_DIMENSIONS][id % MAX_DIMENSIONS].categories)
  }

  lemma CategoriesAt(db: Db, d: nat, p: int)
    requires AllAtPositions(db) && d in db.dimensions && p in db.dimensions[d]
    ensures p >= 0 && RowsOf(CategoryTable(db), IdFor(d, p)) == ByPosition(db.dimensions[d][p].categories)
  {
    IdTells(d, p);
    assert IdFor(d, p) in Ids(db);
  }

  lemma IdsDistinct(d: nat, rows: map<int, Dimension>, p: int, q: int)
    requires AtPositions(rows) && p in rows && q in rows
    ensures DimensionTable(d, rows)[p].id == DimensionTable(d, rows)[q].id ==> p == q
  {
    IdTells(d, p);
    IdTells(d, q);
  }

  lemma TablesHold(db: Db, d: nat)
    requires AllAtPositions(db) && d in db.dimensions
    ensures HoldRows(DimensionTable(d, db.dimensions[d]), CategoryTable(db), db.dimensions[d])
  {
    var rows := db.dimensions[d];
    var table := DimensionTable(d, rows);
    forall p, q | p in table && q in table && table[p].id == table[q].id ensures p == q {
      IdsDistinct(d, rows, p, q);
    }
    forall p | p in table ensures HoldsRow(table[p], RowsOf(CategoryTable(db), table[p].id), p, rows[p]) {
      CategoriesAt(db, d, p);
    }
  }

  lemma FaithfulPositions(world: World, d: nat)
    requires FaithfulAt(world, d) && d in world.db.dimensions && forall i :: EntryHeld(world, i)
    ensures AtPositions(world.db.dimensions[d])
  {
    if Live(world, d) {
      assert EntryHeld(world, world.datasetIds[d]);
    }
  }

  lemma ReachableAtPositions(setting: Setting, events: seq<Event>, s: State)
    requires Reachable(setting, events, s)
    ensures AllAtPositions(s.world.db)
  {
    InitialOk(setting);
    RunOk(Initial(setting), events);
    forall d | d in s.world.db.dimensions ensures AtPositions(s.world.db.dimensions[d]) {
      FaithfulHere(s.world, d);
      FaithfulPositions(s.world, d);
    }
  }

  /** In every reachable state there are tables with category rows keyed by dimension id that hold its dimensions. */
  lemma TablesExist(setting: Setting, events: seq<Event>, s: State) returns (tables: StructureTables)
    requires Reachable(setting, events, s)
    ensures Stored(tables, s.world.db)
  {
    var db := s.world.db;
    ReachableAtPositions(setting, events, s);
    tables := StructureTables(map d | d in db.dimensions :: DimensionTable(d, db.dimensions[d]), CategoryTable(db));
    forall d | d in db.datasets
      ensures HoldRows(RowsOf(tables.dimensions, d), tables.categories, RowsOf(db.dimensions, d))
    {
      if d in db.dimensions {
        TablesHold(db, d);
      }
    }
  }
}
