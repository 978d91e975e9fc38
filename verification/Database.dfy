/** The tables of internal/migrations/sql/001_initial.sql, and what a READ COMMITTED transaction sees of them: the
    committed rows under its own uncommitted writes. */
module Database {
  import opened Basics
  import opened Utf8
  import opened Model

  datatype ProviderRow = ProviderRow(id: nat, spelling: Bytes)

  datatype DatasetRow = DatasetRow(providerId: nat, spelling: Bytes, key: Key, stamp: Bytes, cellCount: int,
                                   valuedCount: int)

  /** The rows of a table whose key starts with a dataset id: dataset, then position or cell index. Nothing ties the
      first part to storage.datasets: the observations table has no foreign key. */
  type Rows<V> = map<nat, map<int, V>>

  /** A dimension row holds its categories, which refer to it and go with it. */
  datatype Db = Db(
    providers: map<Key, ProviderRow>,
    datasets: map<nat, DatasetRow>,
    dimensions: Rows<Dimension>,
    observations: Rows<Content>)

  /** What a transaction has written and locked so far, row by row; None is a deleted row. */
  datatype Writes = Writes(
    providers: map<Key, Option<ProviderRow>>,
    datasets: map<nat, Option<DatasetRow>>,
    dimensions: Rows<Option<Dimension>>,
    observations: Rows<Option<Content>>,
    locked: set<nat>)

  const NO_ROWS := Db(map[], map[], map[], map[])
  const NO_WRITES := Writes(map[], map[], map[], map[], {})

  function RowsOf<V>(rows: Rows<V>, d: nat): map<int, V> {
    if d in rows then rows[d] else map[]
  }

  ghost function Overlay<K, V>(base: map<K, V>, writes: map<K, Option<V>>): map<K, V> {
    map k | k in base.Keys + writes.Keys && (k in writes ==> writes[k].Some?) ::
      if k in writes then writes[k].value else base[k]
  }

  lemma OverlayNothing<K, V>(base: map<K, V>)
    ensures Overlay(base, map[]) == base
  {
  }

  ghost function OverlayRows<V>(base: Rows<V>, writes: Rows<Option<V>>): Rows<V> {
    map d | d in base.Keys + writes.Keys :: Overlay(RowsOf(base, d), RowsOf(writes, d))
  }

  lemma OverlaidRows<V>(base: Rows<V>, writes: Rows<Option<V>>, d: nat)
    ensures RowsOf(OverlayRows(base, writes), d) == Overlay(RowsOf(base, d), RowsOf(writes, d))
    ensures d !in writes ==> RowsOf(OverlayRows(base, writes), d) == RowsOf(base, d)
  {
  }

  /** The database as the next statement of a transaction sees it, and as its commit leaves it. */
  ghost function Visible(db: Db, w: Writes): Db {
    Db(Overlay(db.providers, w.providers), Overlay(db.datasets, w.datasets),
       OverlayRows(db.dimensions, w.dimensions), OverlayRows(db.observations, w.observations))
  }

  ghost function Deleted<V>(rows: map<int, V>): map<int, Option<V>> {
    map k | k in rows :: None
  }

  ghost function Inserted<V>(rows: map<int, V>): map<int, Option<V>> {
    map k | k in rows :: Some(rows[k])
  }

  /** `delete ... where dataset_id = d`, on the rows that the statement sees. */
  ghost function DeleteRows<V>(base: Rows<V>, writes: Rows<Option<V>>, d: nat): Rows<Option<V>> {
    writes[d := RowsOf(writes, d) + Deleted(Overlay(RowsOf(base, d), RowsOf(writes, d)))]
  }

  /** `insert`, `copy` or `update` of rows of d. */
  ghost function PutRows<V>(writes: Rows<Option<V>>, d: nat, rows: map<int, V>): Rows<Option<V>> {
    writes[d := RowsOf(writes, d) + Inserted(rows)]
  }

  lemma DeleteRowsSeen<V>(base: Rows<V>, writes: Rows<Option<V>>, d: nat)
    ensures RowsOf(OverlayRows(base, DeleteRows(base, writes, d)), d) == map[]
    ensures DeleteRows(base, writes, d).Keys == writes.Keys + {d}
  {
    OverlaidRows(base, DeleteRows(base, writes, d), d);
  }

  lemma PutRowsSeen<V>(base: Rows<V>, writes: Rows<Option<V>>, d: nat, rows: map<int, V>)
    ensures RowsOf(OverlayRows(base, PutRows(writes, d, rows)), d) == RowsOf(OverlayRows(base, writes), d) + rows
    ensures PutRows(writes, d, rows).Keys == writes.Keys + {d}
  {
    OverlaidRows(base, PutRows(writes, d, rows), d);
    OverlaidRows(base, writes, d);
    PutOver(RowsOf(base, d), RowsOf(writes, d), rows);
  }

  lemma PutFirstRowsSeen<V>(base: Rows<V>, writes: Rows<Option<V>>, d: nat, rows: map<int, V>)
    requires RowsOf(OverlayRows(base, writes), d) == map[]
    ensures RowsOf(OverlayRows(base, PutRows(writes, d, rows)), d) == rows
    ensures PutRows(writes, d, rows).Keys == writes.Keys + {d}
  {
    PutRowsSeen(base, writes, d, rows);
    assert map[] + rows == rows;
  }

  lemma PutOver<V>(base: map<int, V>, writes: map<int, Option<V>>, rows: map<int, V>)
    ensures Overlay(base, writes + Inserted(rows)) == Overlay(base, writes) + rows
  {
  }

  /** A transaction has a hand in the rows of dataset d. */
  ghost predicate Touches(w: Writes, d: nat) {
    d in w.datasets || d in w.dimensions || d in w.observations || d in w.locked
  }

  /** The rows of a list, by position. */
  ghost function ByPosition<T>(list: seq<T>): map<int, T> {
    map i | 0 <= i < |list| :: list[i]
  }

  // Schema constraints.

  ghost predicate Identifies(rows: map<nat, DatasetRow>, providerId: nat, key: Key, d: nat) {
    d in rows && rows[d].providerId == providerId && rows[d].key == key
  }

  /** datasets_identity_unique, as a lookup: the dataset row with this provider and key. */
  ghost function Find(rows: map<nat, DatasetRow>, providerId: nat, key: Key): Option<nat> {
    if exists d: nat :: Identifies(rows, providerId, key, d) then
      var d: nat :| Identifies(rows, providerId, key, d);
      Some(d)
    else None
  }

  lemma FindOnly(rows: map<nat, DatasetRow>, providerId: nat, key: Key, expected: Option<nat>)
    requires forall d: nat :: Identifies(rows, providerId, key, d) <==> expected == Some(d)
    ensures Find(rows, providerId, key) == expected
  {
  }

  ghost predicate ProviderExists(db: Db, providerId: nat) {
    exists p :: p in db.providers && db.providers[p].id == providerId
  }

  /** What a column or a statement parameter of type text can hold: valid UTF-8 without byte 0. */
  predicate TextHolds(s: Bytes) {
    0 !in s && ValidUtf8(s)
  }

  predicate OptionalTextHolds(s: Option<Bytes>) {
    s.Some? ==> TextHolds(s.value)
  }

  /** The jsonb type: the JSON texts that it takes, each with the spelling in which it gives them back (its own order of
      keys, spaces and digits). That spelling it gives back as it is. A finite map loses no generality. */
  type Jsonb = m: map<Bytes, Bytes> | forall s :: s in m ==> m[s] in m && m[m[s]] == m[s]

  /** A stamp after it has been stored. */
  function Respelled(jsonb: Jsonb, stamp: Bytes): (s: Bytes)
    ensures Respells(jsonb, stamp, s)
  {
    if stamp in jsonb then jsonb[stamp] else stamp
  }

  /** Both are spellings of one jsonb value. */
  predicate Respells(jsonb: Jsonb, stamp: Bytes, other: Bytes) {
    stamp in jsonb ==> other in jsonb && jsonb[other] == jsonb[stamp]
  }

  predicate CodeHolds(code: Code) {
    TextHolds(code.spelling) && TextHolds(code.key)
  }

  predicate CategoriesHold(dimension: Dimension) {
    forall j :: 0 <= j < |dimension.categories| ==> CodeHolds(dimension.categories[j].code)
  }

  predicate CellsHold(cells: seq<Cell>) {
    forall i :: 0 <= i < |cells| ==>
      OptionalTextHolds(cells[i].content.text) && OptionalTextHolds(cells[i].content.status)
  }

  /** The four code constraints of each table: not empty, and between 1 and 256 bytes. */
  predicate CodeAllowed(code: Code) {
    CodeLength(code.spelling) && CodeLength(code.key)
  }

  /** datasets_cell_count_range and datasets_valued_cell_count_range. */
  predicate CountsAllowed(cellCount: int, valuedCount: int) {
    1 <= cellCount <= SCHEMA_MAX_CELLS && 0 <= valuedCount <= cellCount
  }

  /** dimensions_position_unique, dimensions_key_unique, dimensions_position_nonnegative and the code constraints. */
  ghost predicate DimensionAllowed(rows: map<int, Dimension>, row: Dimension) {
    && CodeAllowed(row.code) && row.position >= 0 && row.position !in rows
    && forall k :: k in rows ==> rows[k].code.key != row.code.key
  }

  /** categories_position_unique, categories_key_unique, categories_position_nonnegative and the code constraints. */
  ghost predicate CategoriesAllowed(categories: seq<Category>) {
    && (forall i :: 0 <= i < |categories| ==> categories[i].position >= 0 && CodeAllowed(categories[i].code))
    && (forall i, j :: 0 <= i < j < |categories| ==> categories[i].position != categories[j].position)
    && (forall i, j :: 0 <= i < j < |categories| ==> categories[i].code.key != categories[j].code.key)
  }

  /** observations_pkey, observations_cell_index_range, observations_has_content, observations_value_exclusive; the
      numbers are finite by their type. */
  ghost predicate CellsAllowed(rows: map<int, Content>, cells: seq<Cell>) {
    && DistinctIndexes(cells)
    && forall i :: 0 <= i < |cells| ==>
         0 <= cells[i].index < SCHEMA_MAX_CELLS && cells[i].index !in rows && Storable(cells[i].content)
  }
}
