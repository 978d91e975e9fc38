/** Replace and Delete (internal/store/postgres.go) as transactions that interleave statement by statement, with an
    abort possible between any two statements. The order of waiting and failing is PostgreSQL's: an advisory lock is
    held by one transaction, a statement waits for rows and unique keys that another transaction has in hand, a violated
    constraint or a missing row is an error. */
module Protocol {
  import opened Basics
  import opened Model
  import opened Payload
  import opened PayloadLaws
  import opened Presentation
  import opened Database

  datatype Identity = Identity(provider: Key, dataset: Key)

  datatype Operation = Replace(r: Replacement) | Delete(provider: Code, dataset: Code)

  function IdentityOf(op: Operation): Identity {
    match op
    case Replace(r) => Identity(r.provider.key, r.dataset.key)
    case Delete(provider, dataset) => Identity(provider.key, dataset.key)
  }

  datatype Outcome = Stored(created: bool, summary: Summary) | DatasetExists | Removed

  // One operation at a time: what the service promises.

  datatype Entry = Entry(id: nat, spelling: Bytes, r: Replacement)

  datatype Catalog = Catalog(providers: map<Key, Bytes>, datasets: map<Identity, Entry>)

  const EMPTY := Catalog(map[], map[])

  function Refused(catalog: Catalog, op: Operation): bool {
    op.Replace? && IdentityOf(op) in catalog.datasets && !op.r.replace
  }

  /** The entry an accepted replacement leaves: the spelling is the first one since the dataset was created. */
  function EntryAfter(catalog: Catalog, op: Operation, id: nat): Entry
    requires op.Replace?
  {
    var i := IdentityOf(op);
    if i in catalog.datasets then Entry(catalog.datasets[i].id, catalog.datasets[i].spelling, op.r)
    else Entry(id, op.r.dataset.spelling, op.r)
  }

  function ProviderAfter(catalog: Catalog, r: Replacement): Bytes {
    if r.provider.key in catalog.providers then catalog.providers[r.provider.key] else r.provider.spelling
  }

  /** `id` is used when a dataset is created. */
  function Perform(catalog: Catalog, op: Operation, id: nat): Catalog {
    var i := IdentityOf(op);
    if Refused(catalog, op) then catalog
    else if op.Delete? then catalog.(datasets := catalog.datasets - {i})
    else Catalog(catalog.providers[i.provider := ProviderAfter(catalog, op.r)],
                 catalog.datasets[i := EntryAfter(catalog, op, id)])
  }

  function SummaryOf(provider: Bytes, dataset: Bytes, stamp: Bytes, cellCount: int, valuedCount: int): Summary {
    Summary(provider, dataset, stamp, cellCount, valuedCount, cellCount - valuedCount)
  }

  function Answer(setting: Setting, catalog: Catalog, op: Operation): Outcome {
    if Refused(catalog, op) then DatasetExists
    else if op.Delete? then Removed
    else Stored(IdentityOf(op) !in catalog.datasets,
                SummaryOf(ProviderAfter(catalog, op.r), EntryAfter(catalog, op, 0).spelling,
                          Respelled(setting.jsonb, op.r.sourceStamp), op.r.cellCount, op.r.valuedCount))
  }

  // What can be sent and stored at all. A byte 0 passes the parsers, and bytes that are not UTF-8 pass in a path code.

  predicate Sendable(op: Operation) {
    match op
    case Replace(r) => CodeHolds(r.provider) && TextHolds(r.dataset.key)
    case Delete(provider, dataset) => TextHolds(provider.key) && TextHolds(dataset.key)
  }

  predicate DimensionsHold(r: Replacement, n: int) {
    forall i :: 0 <= i < n && i < |r.dimensions| ==> CodeHolds(r.dimensions[i].code) && CategoriesHold(r.dimensions[i])
  }

  predicate ContentsHold(setting: Setting, r: Replacement) {
    r.sourceStamp in setting.jsonb && DimensionsHold(r, |r.dimensions|) && CellsHold(r.cells)
  }

  /** Everything that the statements of an operation send can be held. A replacement that is refused sends no
      contents, and only a created dataset's spelling is sent. */
  predicate HeldBy(setting: Setting, catalog: Catalog, op: Operation) {
    && Sendable(op)
    && (op.Replace? && !Refused(catalog, op) ==>
        ContentsHold(setting, op.r) && (IdentityOf(op) in catalog.datasets || TextHolds(op.r.dataset.spelling)))
  }

  /** The same for every catalog. */
  predicate AlwaysHeld(setting: Setting, op: Operation) {
    Sendable(op) && (op.Replace? ==> ContentsHold(setting, op.r) && TextHolds(op.r.dataset.spelling))
  }

  // The transactions. A program counter names the statement that comes next.

  /** How a transaction ended: with an answer, on a statement that PostgreSQL refused, or from outside. */
  datatype Ending = Answered | Refusal | RolledBack

  datatype Pc =
    | Begun
    | Locked
    | ProviderInserted
    | ProviderSelected
    | Inserting
    | Emptying
    | Clearing
    | Dimensions(i: nat)
    | CategoriesOf(i: nat)
    | Updating
    | Erasing
    | Committing(outcome: Outcome)
    | Done(ending: Ending)

  datatype Txn = Txn(op: Operation, pc: Pc, providerId: nat, providerSpelling: Bytes, datasetId: nat, existed: bool,
                     w: Writes)

  /** What is fixed for a deployment: the normalization of codes, the advisory key of an identity (any function of it,
      so keys may collide), and what jsonb makes of source stamps. */
  datatype Setting = Setting(normalize: Normalizer, lockOf: Identity -> int, jsonb: Jsonb)

  /** What is committed, what the finished operations did one after the other, and for whom each value of the two
      identity columns was drawn: a value is never handed out twice, not even after an abort. */
  datatype World = World(setting: Setting, db: Db, catalog: Catalog, providerIds: seq<Key>, datasetIds: seq<Identity>)

  /** An operation that was answered. */
  datatype Record = Record(op: Operation, id: nat, outcome: Outcome)

  /** An operation that a statement error ended, and how many had been answered before. */
  datatype Failure = Failure(op: Operation, at: nat)

  datatype State = State(world: World, txns: seq<Txn>, locks: map<int, nat>, log: seq<Record>, failures: seq<Failure>)

  function Initial(setting: Setting): State {
    State(World(setting, NO_ROWS, EMPTY, [], []), [], map[], [], [])
  }

  /** What one statement does: an error, new private writes, or the end of the transaction. */
  datatype Effect =
    | Fails
    | Runs(txn: Txn, providerIds: seq<Key>, datasetIds: seq<Identity>)
    | Ends(outcome: Outcome, db: Db)

  ghost function Sees(world: World, t: Txn): Db {
    Visible(world.db, t.w)
  }

  ghost function RunsOn(world: World, t: Txn): Effect {
    Runs(t, world.providerIds, world.datasetIds)
  }

  ghost function InsertProvider(world: World, t: Txn): Effect
    requires t.op.Replace?
  {
    var code := t.op.r.provider;
    if !CodeHolds(code) || !CodeAllowed(code) then Fails
    else
    var row := ProviderRow(|world.providerIds|, code.spelling);
    var w :=
      if code.key in Sees(world, t).providers then t.w
      else t.w.(providers := t.w.providers[code.key := Some(row)]);
    Runs(t.(pc := ProviderInserted, w := w), world.providerIds + [code.key], world.datasetIds)
  }

  ghost function SelectProvider(world: World, t: Txn): Effect
    requires t.op.Replace?
  {
    var key, rows := t.op.r.provider.key, Sees(world, t).providers;
    if key !in rows then Fails
    else RunsOn(world, t.(pc := ProviderSelected, providerId := rows[key].id, providerSpelling := rows[key].spelling))
  }

  /** `for update`: the row found stays locked. */
  ghost function SelectDataset(world: World, t: Txn): Effect {
    if !TextHolds(IdentityOf(t.op).dataset) then Fails
    else match Find(Sees(world, t).datasets, t.providerId, IdentityOf(t.op).dataset)
    case None => RunsOn(world, t.(pc := Inserting, existed := false))
    case Some(d) =>
      RunsOn(world, t.(pc := Emptying, existed := true, datasetId := d, w := t.w.(locked := t.w.locked + {d})))
  }

  /** The row that a replacement makes. */
  function RowFor(setting: Setting, providerId: nat, key: Key, spelling: Bytes, r: Replacement): DatasetRow {
    DatasetRow(providerId, spelling, key, Respelled(setting.jsonb, r.sourceStamp), r.cellCount, r.valuedCount)
  }

  ghost function InsertDataset(world: World, t: Txn): Effect
    requires t.op.Replace?
  {
    var r, d := t.op.r, |world.datasetIds|;
    if !CodeHolds(r.dataset) || r.sourceStamp !in world.setting.jsonb then Fails
    else if !CodeAllowed(r.dataset) || !CountsAllowed(r.cellCount, r.valuedCount) then Fails
    else if !ProviderExists(Sees(world, t), t.providerId) then Fails
    else if Find(Sees(world, t).datasets, t.providerId, r.dataset.key).Some? then Fails
    else
      var row := RowFor(world.setting, t.providerId, r.dataset.key, r.dataset.spelling, r);
      Runs(t.(pc := Dimensions(0), datasetId := d, w := t.w.(datasets := t.w.datasets[d := Some(row)])),
           world.providerIds, world.datasetIds + [IdentityOf(t.op)])
  }

  ghost function WithoutObservations(world: World, t: Txn, d: nat): Writes {
    t.w.(observations := DeleteRows(world.db.observations, t.w.observations, d))
  }

  ghost function WithoutDimensions(world: World, t: Txn, d: nat): Writes {
    t.w.(dimensions := DeleteRows(world.db.dimensions, t.w.dimensions, d))
  }

  /** An existing dataset is refused here unless the request may replace it. */
  ghost function DeleteObservations(world: World, t: Txn): Effect
    requires t.op.Replace?
  {
    if !t.op.r.replace then Ends(DatasetExists, world.db)
    else RunsOn(world, t.(pc := Clearing, w := WithoutObservations(world, t, t.datasetId)))
  }

  ghost function DeleteDimensions(world: World, t: Txn): Effect {
    RunsOn(world, t.(pc := Dimensions(0), w := WithoutDimensions(world, t, t.datasetId)))
  }

  ghost function WithDimension(world: World, t: Txn, row: Dimension): Writes {
    t.w.(dimensions := PutRows(t.w.dimensions, t.datasetId, map[row.position := row]))
  }

  ghost function InsertDimension(world: World, t: Txn, i: nat): Effect
    requires t.op.Replace? && i < |t.op.r.dimensions|
  {
    var row := t.op.r.dimensions[i].(categories := []);
    if !CodeHolds(row.code) then Fails
    else if t.datasetId !in Sees(world, t).datasets then Fails
    else if !DimensionAllowed(RowsOf(Sees(world, t).dimensions, t.datasetId), row) then Fails
    else RunsOn(world, t.(pc := CategoriesOf(i), w := WithDimension(world, t, row)))
  }

  ghost function CopyCategories(world: World, t: Txn, i: nat): Effect
    requires t.op.Replace? && i < |t.op.r.dimensions|
  {
    var row := t.op.r.dimensions[i];
    if !CategoriesHold(row) then Fails
    else if row.position !in RowsOf(Sees(world, t).dimensions, t.datasetId) then Fails
    else if !CategoriesAllowed(row.categories) then Fails
    else RunsOn(world, t.(pc := Dimensions(i + 1), w := WithDimension(world, t, row)))
  }

  ghost function CopyCells(world: World, t: Txn): Effect
    requires t.op.Replace?
  {
    var cells := t.op.r.cells;
    if !CellsHold(cells) || !CellsAllowed(RowsOf(Sees(world, t).observations, t.datasetId), cells) then Fails
    else RunsOn(world, t.(pc := Updating,
      w := t.w.(observations := PutRows(t.w.observations, t.datasetId, CellMap(cells)))))
  }

  ghost function UpdateDataset(world: World, t: Txn): Effect
    requires t.op.Replace?
  {
    var r, rows := t.op.r, Sees(world, t).datasets;
    if r.sourceStamp !in world.setting.jsonb then Fails
    else if t.datasetId !in rows || !CountsAllowed(r.cellCount, r.valuedCount) then Fails
    else
      var stamp := Respelled(world.setting.jsonb, r.sourceStamp);
      var row := rows[t.datasetId].(stamp := stamp, cellCount := r.cellCount, valuedCount := r.valuedCount);
      var outcome := Stored(!t.existed,
                            SummaryOf(t.providerSpelling, row.spelling, row.stamp, row.cellCount, row.valuedCount));
      RunsOn(world, t.(pc := Committing(outcome), w := t.w.(datasets := t.w.datasets[t.datasetId := Some(row)])))
  }

  /** The join in both statements of Delete. */
  ghost function FindByKeys(db: Db, i: Identity): Option<nat> {
    if i.provider in db.providers then Find(db.datasets, db.providers[i.provider].id, i.dataset) else None
  }

  ghost function EraseObservations(world: World, t: Txn): Effect {
    if !Sendable(t.op) then Fails
    else match FindByKeys(Sees(world, t), IdentityOf(t.op))
    case None => RunsOn(world, t.(pc := Erasing))
    case Some(d) => RunsOn(world, t.(pc := Erasing, w := WithoutObservations(world, t, d)))
  }

  /** The dimensions cascade; the observations cannot. */
  ghost function EraseDataset(world: World, t: Txn): Effect {
    if !Sendable(t.op) then Fails
    else match FindByKeys(Sees(world, t), IdentityOf(t.op))
    case None => RunsOn(world, t.(pc := Committing(Removed)))
    case Some(d) => RunsOn(world, t.(pc := Committing(Removed),
      w := WithoutDimensions(world, t, d).(datasets := t.w.datasets[d := None])))
  }

  ghost function ReplaceStatement(world: World, t: Txn): Effect
    requires t.op.Replace?
  {
    match t.pc
    case Locked => InsertProvider(world, t)
    case ProviderInserted => SelectProvider(world, t)
    case ProviderSelected => SelectDataset(world, t)
    case Inserting => InsertDataset(world, t)
    case Emptying => DeleteObservations(world, t)
    case Clearing => DeleteDimensions(world, t)
    case Dimensions(i) => if i < |t.op.r.dimensions| then InsertDimension(world, t, i) else CopyCells(world, t)
    case CategoriesOf(i) => if i < |t.op.r.dimensions| then CopyCategories(world, t, i) else Fails
    case Updating => UpdateDataset(world, t)
    case Committing(outcome) => Ends(outcome, Sees(world, t))
    case _ => Fails
  }

  ghost function DeleteStatement(world: World, t: Txn): Effect {
    match t.pc
    case Locked => EraseObservations(world, t)
    case Erasing => EraseDataset(world, t)
    case Committing(outcome) => Ends(outcome, Sees(world, t))
    case _ => Fails
  }

  ghost function Statement(world: World, t: Txn): Effect {
    if t.op.Replace? then ReplaceStatement(world, t) else DeleteStatement(world, t)
  }

  // Interleaving.

  /** Two uncommitted rows with one identity. */
  ghost predicate SameIdentityInserted(w: Writes, v: Writes) {
    exists d, e :: d in w.datasets && e in v.datasets && w.datasets[d].Some? && v.datasets[e].Some?
      && w.datasets[d].value.providerId == v.datasets[e].value.providerId
      && w.datasets[d].value.key == v.datasets[e].value.key
  }

  /** A statement that would leave w has to wait for a transaction that has v in hand. Row locks are taken per dataset
      here, which waits more often than per row; WaitsOnlyForProvider shows that neither ever waits. */
  ghost predicate Clash(w: Writes, v: Writes) {
    || (exists d: nat :: Touches(w, d) && Touches(v, d))
    || (exists p :: p in w.providers && p in v.providers)
    || SameIdentityInserted(w, v)
  }

  ghost predicate Waits(s: State, tid: nat, w: Writes) {
    exists u :: 0 <= u < |s.txns| && u != tid && Clash(w, s.txns[u].w)
  }

  datatype Step = Goes(state: State) | Blocked | Over

  ghost function Release(locks: map<int, nat>, tid: nat): map<int, nat> {
    map k | k in locks && locks[k] != tid :: locks[k]
  }

  function Finished(t: Txn, ending: Ending): Txn {
    t.(pc := Done(ending), w := NO_WRITES)
  }

  /** A transaction ends with an answer: its locks go, and the operation takes its place in the history. */
  ghost function Finish(s: State, tid: nat, outcome: Outcome, db: Db): State
    requires tid < |s.txns|
  {
    var t := s.txns[tid];
    State(s.world.(db := db, catalog := Perform(s.world.catalog, t.op, t.datasetId)),
          s.txns[tid := Finished(t, Answered)],
          Release(s.locks, tid), s.log + [Record(t.op, t.datasetId, outcome)], s.failures)
  }

  /** Everything uncommitted is gone. */
  ghost function Roll(s: State, tid: nat, ending: Ending): State
    requires tid < |s.txns|
  {
    s.(txns := s.txns[tid := Finished(s.txns[tid], ending)], locks := Release(s.locks, tid))
  }

  /** A statement was refused: the caller gets the error and the deferred rollback runs. */
  ghost function Fail(s: State, tid: nat): State
    requires tid < |s.txns|
  {
    Roll(s, tid, Refusal).(failures := s.failures + [Failure(s.txns[tid].op, |s.log|)])
  }

  /** A statement has run, and its transaction goes on. */
  ghost function Ran(s: State, tid: nat, effect: Effect): State
    requires tid < |s.txns| && effect.Runs?
  {
    s.(world := s.world.(providerIds := effect.providerIds, datasetIds := effect.datasetIds),
       txns := s.txns[tid := effect.txn])
  }

  ghost function TakeLock(s: State, tid: nat): Step
    requires tid < |s.txns|
  {
    var k := s.world.setting.lockOf(IdentityOf(s.txns[tid].op));
    if k in s.locks then Blocked
    else Goes(s.(locks := s.locks[k := tid], txns := s.txns[tid := s.txns[tid].(pc := Locked)]))
  }

  /** The next statement of one transaction. */
  ghost function Advance(s: State, tid: nat): Step
    requires tid < |s.txns|
  {
    var t := s.txns[tid];
    if t.pc.Done? then Over
    else if t.pc.Begun? then TakeLock(s, tid)
    else
      var effect := Statement(s.world, t);
      match effect
      case Fails => Goes(Fail(s, tid))
      case Ends(outcome, db) => Goes(Finish(s, tid, outcome, db))
      case Runs(_, _, _) => if Waits(s, tid, effect.txn.w) then Blocked else Goes(Ran(s, tid, effect))
  }

  datatype Event = Arrive(op: Operation) | Go(tid: nat) | Abort(tid: nat)

  ghost predicate WellFormedOp(op: Operation) {
    op.Replace? ==> WellFormedReplacement(op.r, SCHEMA_MAX_CELLS)
  }

  /** Every code carries the key that normalization gives its spelling. */
  ghost predicate Normalized(setting: Setting, op: Operation) {
    op.Replace? ==> WellCodedReplacement(op.r, setting.normalize)
  }

  /** What the handlers submit: a replacement that ParseReplacement returned, or a deletion. */
  ghost predicate Submitted(setting: Setting, op: Operation) {
    WellFormedOp(op) && Normalized(setting, op)
  }

  /** Abort is a cancellation, a lost connection or a failed checkpoint, between any two statements. None: the event
      cannot happen in this state. */
  ghost function Next(s: State, e: Event): Option<State> {
    match e
    case Arrive(op) =>
      if !Submitted(s.world.setting, op) then None
      else Some(s.(txns := s.txns + [Txn(op, Begun, 0, [], 0, false, NO_WRITES)]))
    case Go(tid) => if tid < |s.txns| && Advance(s, tid).Goes? then Some(Advance(s, tid).state) else None
    case Abort(tid) => if tid < |s.txns| && !s.txns[tid].pc.Done? then Some(Roll(s, tid, RolledBack)) else None
  }

  /** A run, one event after the other. */
  ghost function Run(s: State, events: seq<Event>): Option<State> {
    if events == [] then Some(s) else
      var before := Run(s, events[..|events| - 1]);
      if before.None? then None else Next(before.value, events[|events| - 1])
  }
}
