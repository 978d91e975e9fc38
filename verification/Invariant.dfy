/** What every step of every interleaving keeps: the committed tables are exactly what the finished operations, one
    after the other, leave behind, and every running transaction sees exactly its own half-written generation. */
module Invariant {
  import opened Basics
  import opened Model
  import opened Structure
  import opened Remap
  import opened Payload
  import opened PayloadLaws
  import opened Database
  import opened Protocol

  // The committed tables.

  /** Dataset d was created for an identity and still is its current dataset. */
  ghost predicate Live(world: World, d: nat) {
    && d < |world.datasetIds| && world.datasetIds[d] in world.catalog.datasets
    && world.catalog.datasets[world.datasetIds[d]].id == d
  }

  /** All rows of d in all tables are one replacement, or there are none. */
  ghost predicate FaithfulAt(world: World, d: nat) {
    if Live(world, d) then
      var i := world.datasetIds[d];
      var e := world.catalog.datasets[i];
      && i.provider in world.db.providers && d in world.db.datasets
      && world.db.datasets[d] == RowFor(world.setting, world.db.providers[i.provider].id, i.dataset, e.spelling, e.r)
      && RowsOf(world.db.dimensions, d) == ByPosition(e.r.dimensions)
      && CellsAscend(e.r.cells) && RowsOf(world.db.observations, d) == CellMap(e.r.cells)
    else
      d !in world.db.datasets && RowsOf(world.db.dimensions, d) == map[] && RowsOf(world.db.observations, d) == map[]
  }

  ghost predicate ProvidersFaithful(world: World) {
    && world.db.providers.Keys == world.catalog.providers.Keys
    && forall p :: p in world.db.providers ==> ProviderFaithful(world, p, world.db.providers[p])
  }

  ghost predicate ProviderFaithful(world: World, p: Key, row: ProviderRow) {
    && p in world.catalog.providers && row.spelling == world.catalog.providers[p] && DrawnFor(world, p, row.id)
    && CodedBy(Code(row.spelling, p), world.setting.normalize) && CodeHolds(Code(row.spelling, p))
  }

  /** This value of the provider identity column was drawn for p: it tells providers apart. */
  ghost predicate DrawnFor(world: World, p: Key, id: nat) {
    id < |world.providerIds| && world.providerIds[id] == p
  }

  ghost predicate EntryOk(world: World, i: Identity) {
    i in world.catalog.datasets ==>
      var e := world.catalog.datasets[i];
      && i.provider in world.catalog.providers && e.id < |world.datasetIds| && world.datasetIds[e.id] == i
      && IdentityOf(Replace(e.r)) == i
  }

  /** What is in force was submitted and could be stored. */
  ghost predicate EntryHeld(world: World, i: Identity) {
    i in world.catalog.datasets ==>
      var e := world.catalog.datasets[i];
      && Submitted(world.setting, Replace(e.r)) && ContentsHold(world.setting, e.r)
      && CodedBy(Code(e.spelling, i.dataset), world.setting.normalize)
      && TextHolds(i.provider) && CodeHolds(Code(e.spelling, i.dataset))
  }

  ghost predicate Faithful(world: World) {
    && ProvidersFaithful(world)
    && (forall i :: EntryOk(world, i))
    && (forall i :: EntryHeld(world, i))
    && (forall d: nat :: FaithfulAt(world, d))
  }

  lemma FaithfulHere(world: World, d: nat)
    requires Faithful(world)
    ensures FaithfulAt(world, d)
  {
  }

  // One running transaction.

  /** It writes for its own identity only. */
  ghost predicate Confined(world: World, t: Txn) {
    var i := IdentityOf(t.op);
    && (forall p :: p in t.w.providers ==> p == i.provider)
    && (forall d: nat :: Touches(t.w, d) ==> d < |world.datasetIds| && world.datasetIds[d] == i)
    && (forall d :: d in t.w.datasets ==> WrittenRowOk(world, i, t.w.datasets[d]))
  }

  ghost predicate WrittenRowOk(world: World, i: Identity, row: Option<DatasetRow>) {
    row.Some? ==> row.value.key == i.dataset && DrawnFor(world, i.provider, row.value.providerId)
  }

  ghost predicate OnlyTouches(w: Writes, d: nat) {
    forall e: nat :: Touches(w, e) ==> e == d
  }

  ghost predicate RowsUntouched(w: Writes) {
    w.datasets == map[] && w.dimensions == map[] && w.observations == map[]
  }

  /** After the insert the provider is either committed or this transaction's own. */
  ghost predicate ProviderSettled(world: World, t: Txn)
    requires t.op.Replace?
  {
    var p := t.op.r.provider.key;
    if p in t.w.providers then
      && p !in world.db.providers && t.w.providers[p].Some?
      && t.w.providers[p].value.spelling == t.op.r.provider.spelling && DrawnFor(world, p, t.w.providers[p].value.id)
    else p in world.db.providers
  }

  /** The locals scanned from the provider row. */
  ghost predicate ProviderRead(world: World, t: Txn)
    requires t.op.Replace?
  {
    var p, rows := t.op.r.provider.key, Sees(world, t).providers;
    ProviderSettled(world, t) && rows[p].id == t.providerId && rows[p].spelling == t.providerSpelling
  }

  ghost predicate Exists(world: World, t: Txn) {
    IdentityOf(t.op) in world.catalog.datasets
  }

  ghost function Current(world: World, t: Txn): Entry
    requires Exists(world, t)
  {
    world.catalog.datasets[IdentityOf(t.op)]
  }

  /** The locals scanned from the dataset row. */
  ghost predicate DatasetRead(world: World, t: Txn)
    requires t.op.Replace?
  {
    && t.datasetId < |world.datasetIds| && world.datasetIds[t.datasetId] == IdentityOf(t.op)
    && OnlyTouches(t.w, t.datasetId)
    && (t.existed <==> Exists(world, t))
    && (t.existed ==> Current(world, t).id == t.datasetId)
  }

  ghost predicate SeesRow(world: World, t: Txn)
    requires t.op.Replace?
  {
    var rows := Sees(world, t).datasets;
    && t.datasetId in rows && rows[t.datasetId].providerId == t.providerId
    && rows[t.datasetId].key == t.op.r.dataset.key
    && rows[t.datasetId].spelling == EntryAfter(world.catalog, t.op, 0).spelling
  }

  ghost predicate Chosen(world: World, t: Txn)
    requires t.op.Replace?
  {
    ProviderRead(world, t) && DatasetRead(world, t) && SeesRow(world, t)
  }

  /** In the middle of writing, it sees these dimensions and these cells of its dataset, and nothing of any other
      version. */
  ghost predicate Writing(world: World, t: Txn, dimensions: seq<Dimension>, cells: map<int, Content>)
    requires t.op.Replace?
  {
    && Chosen(world, t)
    && RowsOf(Sees(world, t).dimensions, t.datasetId) == ByPosition(dimensions)
    && RowsOf(Sees(world, t).observations, t.datasetId) == cells
  }

  ghost predicate MayReplace(t: Txn)
    requires t.op.Replace?
  {
    t.existed ==> t.op.r.replace
  }

  /** How far it has come: the dimension rows it has written, or those of the old version that it has not deleted
      yet. */
  ghost function DimensionsSoFar(world: World, t: Txn): seq<Dimension>
    requires t.op.Replace?
  {
    var dimensions := t.op.r.dimensions;
    match t.pc
    case Clearing => if Exists(world, t) then Current(world, t).r.dimensions else []
    case Dimensions(i) => if i <= |dimensions| then dimensions[..i] else dimensions
    case CategoriesOf(i) =>
      if i < |dimensions| then dimensions[..i] + [dimensions[i].(categories := [])] else dimensions
    case _ => dimensions
  }

  ghost function CellsSoFar(t: Txn): map<int, Content>
    requires t.op.Replace?
  {
    if (t.pc.Updating? || t.pc.Committing?) && DistinctIndexes(t.op.r.cells) then CellMap(t.op.r.cells) else map[]
  }

  ghost predicate RowFinished(world: World, t: Txn)
    requires t.op.Replace?
  {
    var rows := Sees(world, t).datasets;
    && t.datasetId in rows
    && var spelling := EntryAfter(world.catalog, t.op, 0).spelling;
       rows[t.datasetId] == RowFor(world.setting, t.providerId, t.op.r.dataset.key, spelling, t.op.r)
  }

  ghost predicate CounterOk(world: World, t: Txn)
    requires t.op.Replace?
  {
    match t.pc
    case Clearing => Exists(world, t)
    case Dimensions(i) => i <= |t.op.r.dimensions|
    case CategoriesOf(i) => i < |t.op.r.dimensions|
    case Updating => true
    case Committing(outcome) => RowFinished(world, t) && outcome == Answer(world.setting, world.catalog, t.op)
    case _ => false
  }

  /** The provider is there, the dataset is not, and nothing has been written for it. */
  ghost predicate NothingFound(world: World, t: Txn)
    requires t.op.Replace?
  {
    ProviderRead(world, t) && RowsUntouched(t.w) && t.w.locked == {} && !t.existed && !Exists(world, t)
  }

  ghost predicate ReplaceStage(world: World, t: Txn)
    requires t.op.Replace?
  {
    if t.pc.Begun? || t.pc.Locked? || t.pc.Done? then t.w == NO_WRITES
    else if t.pc.ProviderInserted? then ProviderSettled(world, t) && RowsUntouched(t.w) && t.w.locked == {}
    else if t.pc.ProviderSelected? then ProviderRead(world, t) && RowsUntouched(t.w) && t.w.locked == {}
    else if t.pc.Inserting? then NothingFound(world, t)
    else if t.pc.Emptying? then ProviderRead(world, t) && RowsUntouched(t.w) && DatasetRead(world, t) && t.existed
    else CounterOk(world, t) && Midway(world, t, DimensionsSoFar(world, t), CellsSoFar(t))
  }

  /** Between the dataset lookup and the commit. */
  ghost predicate Midway(world: World, t: Txn, dimensions: seq<Dimension>, cells: map<int, Content>) {
    t.op.Replace? && Confined(world, t) && MayReplace(t) && Writing(world, t, dimensions, cells)
  }

  /** Without observations, and later without any row, of the dataset that is current; untouched when there is none. */
  ghost predicate DeleteStage(world: World, t: Txn) {
    match t.pc
    case Begun => t.w == NO_WRITES
    case Locked => t.w == NO_WRITES
    case Erasing => Emptied(world, t)
    case Committing(outcome) => outcome == Removed && Removing(world, t)
    case Done(_) => t.w == NO_WRITES
    case _ => false
  }

  ghost predicate Erased(world: World, t: Txn) {
    && t.w.providers == map[] && t.w.locked == {}
    && if Exists(world, t) then
         var d := Current(world, t).id;
         OnlyTouches(t.w, d) && RowsOf(Sees(world, t).observations, d) == map[]
       else
         RowsUntouched(t.w)
  }

  ghost predicate Gone(world: World, t: Txn, d: nat) {
    d !in Sees(world, t).datasets && RowsOf(Sees(world, t).dimensions, d) == map[]
  }

  /** A deletion about to commit. */
  ghost predicate Removing(world: World, t: Txn) {
    && t.op.Delete? && Confined(world, t) && Erased(world, t)
    && (Exists(world, t) ==> Gone(world, t, Current(world, t).id))
  }

  /** The dimensions whose rows are complete. */
  function DimensionsSent(t: Txn): nat
    requires t.op.Replace?
  {
    match t.pc
    case Dimensions(i) => i
    case CategoriesOf(i) => i
    case Updating => |t.op.r.dimensions|
    case Committing(_) => |t.op.r.dimensions|
    case _ => 0
  }

  predicate KnowsDataset(t: Txn) {
    t.pc.Dimensions? || t.pc.CategoriesOf? || t.pc.Updating? || t.pc.Committing?
  }

  predicate PastLookup(t: Txn) {
    KnowsDataset(t) || t.pc.Inserting? || t.pc.Emptying? || t.pc.Clearing?
  }

  /** What its statements have sent so far could be held. */
  predicate Passed(setting: Setting, t: Txn) {
    match t.op
    case Delete(_, _) => t.pc.Erasing? || t.pc.Committing? ==> Sendable(t.op)
    case Replace(r) =>
      && (PastLookup(t) || t.pc.ProviderInserted? || t.pc.ProviderSelected? ==> CodeHolds(r.provider))
      && (PastLookup(t) ==> TextHolds(r.dataset.key))
      && (KnowsDataset(t) && !t.existed ==> TextHolds(r.dataset.spelling))
      && DimensionsHold(r, DimensionsSent(t))
      && (t.pc.CategoriesOf? && t.pc.i < |r.dimensions| ==> CodeHolds(r.dimensions[t.pc.i].code))
      && (t.pc.Updating? || t.pc.Committing? ==> CellsHold(r.cells))
      && (t.pc.Committing? ==> r.sourceStamp in setting.jsonb)
  }

  ghost predicate Own(world: World, t: Txn) {
    && Passed(world.setting, t) && Confined(world, t)
    && if t.op.Replace? then ReplaceStage(world, t) else DeleteStage(world, t)
  }

  // Lookups find the current dataset and nothing else.

  lemma RowIsCurrent(world: World, i: Identity, providerId: nat, d: nat)
    requires ProvidersFaithful(world) && FaithfulAt(world, d) && DrawnFor(world, i.provider, providerId)
    requires d in world.db.datasets && world.db.datasets[d].providerId == providerId
    requires world.db.datasets[d].key == i.dataset
    ensures i in world.catalog.datasets && world.catalog.datasets[i].id == d
  {
    var j := world.datasetIds[d];
    assert ProviderFaithful(world, j.provider, world.db.providers[j.provider]);
    assert j == i;
  }

  lemma CurrentHasRow(world: World, i: Identity)
    requires i in world.catalog.datasets && EntryOk(world, i) && FaithfulAt(world, world.catalog.datasets[i].id)
    ensures i.provider in world.db.providers && world.catalog.datasets[i].id in world.db.datasets
    ensures world.db.datasets[world.catalog.datasets[i].id].providerId == world.db.providers[i.provider].id
    ensures world.db.datasets[world.catalog.datasets[i].id].key == i.dataset
  {
  }

  lemma FindCurrent(world: World, i: Identity, providerId: nat)
    requires Faithful(world) && DrawnFor(world, i.provider, providerId)
    requires i.provider in world.db.providers ==> world.db.providers[i.provider].id == providerId
    ensures Find(world.db.datasets, providerId, i.dataset)
            == if i in world.catalog.datasets then Some(world.catalog.datasets[i].id) else None
    ensures EntryOk(world, i)
  {
    var rows := world.db.datasets;
    assert EntryOk(world, i);
    if i in world.catalog.datasets {
      CurrentHasRow(world, i);
    }
    forall d: nat
      ensures Identifies(rows, providerId, i.dataset, d)
              <==> i in world.catalog.datasets && world.catalog.datasets[i].id == d
    {
      if Identifies(rows, providerId, i.dataset, d) {
        RowIsCurrent(world, i, providerId, d);
      }
    }
    var found := if i in world.catalog.datasets then Some(world.catalog.datasets[i].id) else None;
    FindOnly(rows, providerId, i.dataset, found);
  }

  lemma SeesCommittedDatasets(world: World, t: Txn)
    requires t.w.datasets == map[]
    ensures Sees(world, t).datasets == world.db.datasets
  {
    OverlayNothing(world.db.datasets);
  }

  /** What a transaction that has read its provider but not written a dataset finds. */
  lemma FindsCurrent(world: World, t: Txn)
    requires Faithful(world) && t.op.Replace? && ProviderRead(world, t) && t.w.datasets == map[]
    ensures Find(Sees(world, t).datasets, t.providerId, t.op.r.dataset.key)
            == if Exists(world, t) then Some(Current(world, t).id) else None
    ensures EntryOk(world, IdentityOf(t.op))
  {
    ProviderDrawn(world, t);
    SeesCommittedDatasets(world, t);
    FindCurrent(world, IdentityOf(t.op), t.providerId);
  }

  // Each statement of Replace succeeds and keeps Own.

  lemma CodedIsAllowed(code: Code, normalize: Normalizer)
    requires CodedBy(code, normalize)
    ensures CodeAllowed(code)
  {
  }

  lemma InsertProviderOk(world: World, t: Txn)
    requires Faithful(world) && Own(world, t) && t.op.Replace? && t.pc.Locked?
    requires CodeHolds(t.op.r.provider) && CodeAllowed(t.op.r.provider)
    ensures Continues(world, InsertProvider(world, t), t)
  {
  }

  /** The effect is a next statement, whose transaction is again as it should be. */
  ghost predicate Continues(world: World, effect: Effect, t: Txn) {
    && effect.Runs? && world.providerIds <= effect.providerIds && world.datasetIds <= effect.datasetIds
    && effect.txn.op == t.op && !effect.txn.pc.Begun? && !effect.txn.pc.Done?
    && Own(world.(providerIds := effect.providerIds, datasetIds := effect.datasetIds), effect.txn)
  }

  lemma ProviderSeen(world: World, t: Txn, t': Txn)
    requires t.op.Replace? && ProviderSettled(world, t) && t.op.r.provider.key in Sees(world, t).providers
    requires var row := Sees(world, t).providers[t.op.r.provider.key];
      t' == t.(pc := ProviderSelected, providerId := row.id, providerSpelling := row.spelling)
    ensures ProviderRead(world, t')
  {
  }

  lemma SelectProviderOk(world: World, t: Txn)
    requires Own(world, t) && t.op.Replace? && t.pc.ProviderInserted?
    ensures Continues(world, SelectProvider(world, t), t)
  {
    var p, rows := t.op.r.provider.key, Sees(world, t).providers;
    assert p in rows;
    var t' := t.(pc := ProviderSelected, providerId := rows[p].id, providerSpelling := rows[p].spelling);
    ProviderSeen(world, t, t');
    Onward(world, t, t');
  }

  /** A row that was found is locked; the locals say which. */
  lemma FoundLocked(world: World, t: Txn, t': Txn, d: nat)
    requires t.op.Replace? && Confined(world, t) && ProviderRead(world, t) && RowsUntouched(t.w) && t.w.locked == {}
    requires EntryOk(world, IdentityOf(t.op)) && Exists(world, t) && d == Current(world, t).id
    requires t' == t.(pc := Emptying, existed := true, datasetId := d, w := t.w.(locked := t.w.locked + {d}))
    ensures Confined(world, t') && ProviderRead(world, t') && RowsUntouched(t'.w) && DatasetRead(world, t')
  {
  }

  lemma SelectFound(world: World, t: Txn)
    requires EntryOk(world, IdentityOf(t.op)) && Own(world, t) && t.op.Replace? && t.pc.ProviderSelected?
    requires TextHolds(t.op.r.dataset.key) && Exists(world, t)
    requires Find(Sees(world, t).datasets, t.providerId, t.op.r.dataset.key) == Some(Current(world, t).id)
    ensures Continues(world, SelectDataset(world, t), t)
    ensures SelectDataset(world, t).txn.pc == Emptying && SelectDataset(world, t).txn.w.locked == {Current(world, t).id}
  {
    var d := Current(world, t).id;
    var t' := t.(pc := Emptying, existed := true, datasetId := d, w := t.w.(locked := t.w.locked + {d}));
    FoundLocked(world, t, t', d);
    Onward(world, t, t');
  }

  lemma SelectNothing(world: World, t: Txn)
    requires Own(world, t) && t.op.Replace? && t.pc.ProviderSelected?
    requires TextHolds(t.op.r.dataset.key) && !Exists(world, t)
    requires Find(Sees(world, t).datasets, t.providerId, t.op.r.dataset.key) == None
    ensures Continues(world, SelectDataset(world, t), t)
    ensures SelectDataset(world, t).txn.pc == Inserting
  {
    Onward(world, t, t.(pc := Inserting, existed := false));
  }

  /** The lookup finds and locks the dataset exactly when the identity exists. */
  lemma SelectDatasetOk(world: World, t: Txn)
    requires Faithful(world) && Own(world, t) && t.op.Replace?
    requires t.pc.ProviderSelected? && TextHolds(t.op.r.dataset.key)
    ensures Continues(world, SelectDataset(world, t), t)
    ensures SelectDataset(world, t).txn.pc == if Exists(world, t) then Emptying else Inserting
    ensures Exists(world, t) ==> SelectDataset(world, t).txn.w.locked == {Current(world, t).id}
  {
    FindsCurrent(world, t);
    if Exists(world, t) {
      SelectFound(world, t);
    } else {
      SelectNothing(world, t);
    }
  }

  /** No table has rows of a dataset id that was just drawn. */
  lemma InsertDatasetOk(world: World, t: Txn) returns (t': Txn)
    requires ProvidersFaithful(world) && FaithfulAt(world, |world.datasetIds|)
    requires t.op.Replace? && Confined(world, t) && NothingFound(world, t)
    requires CodeHolds(t.op.r.dataset) && CodeAllowed(t.op.r.dataset) && t.op.r.sourceStamp in world.setting.jsonb
    requires CountsAllowed(t.op.r.cellCount, t.op.r.valuedCount)
    requires Find(Sees(world, t).datasets, t.providerId, t.op.r.dataset.key) == None
    ensures InsertDataset(world, t) == Runs(t', world.providerIds, world.datasetIds + [IdentityOf(t.op)])
    ensures t'.op == t.op && t'.pc == Dimensions(0)
    ensures Midway(world.(datasetIds := world.datasetIds + [IdentityOf(t.op)]), t', [], map[])
  {
    var p, d := t.op.r.provider.key, |world.datasetIds|;
    ProviderDrawn(world, t);
    assert p in Sees(world, t).providers && Sees(world, t).providers[p].id == t.providerId;
    var row := RowFor(world.setting, t.providerId, t.op.r.dataset.key, t.op.r.dataset.spelling, t.op.r);
    t' := t.(pc := Dimensions(0), datasetId := d, w := t.w.(datasets := t.w.datasets[d := Some(row)]));
    FreshRows(world, t, t', row);
  }

  lemma FreshRows(world: World, t: Txn, t': Txn, row: DatasetRow)
    requires t.op.Replace? && NothingFound(world, t)
    requires Confined(world, t) && DrawnFor(world, t.op.r.provider.key, t.providerId)
    requires |world.datasetIds| !in world.db.datasets && RowsOf(world.db.dimensions, |world.datasetIds|) == map[]
    requires RowsOf(world.db.observations, |world.datasetIds|) == map[]
    requires row == RowFor(world.setting, t.providerId, t.op.r.dataset.key, t.op.r.dataset.spelling, t.op.r)
    requires t' == t.(pc := t'.pc, datasetId := |world.datasetIds|,
                      w := t.w.(datasets := t.w.datasets[|world.datasetIds| := Some(row)]))
    ensures Midway(world.(datasetIds := world.datasetIds + [IdentityOf(t.op)]), t', [], map[])
  {
    var d, after := |world.datasetIds|, world.(datasetIds := world.datasetIds + [IdentityOf(t.op)]);
    OverlaidRows(world.db.dimensions, t'.w.dimensions, d);
    OverlaidRows(world.db.observations, t'.w.observations, d);
    assert OnlyTouches(t'.w, d);
    assert Sees(after, t').providers == Sees(world, t).providers;
    assert ProviderRead(after, t');
    assert SeesRow(after, t');
  }

  lemma Onward(world: World, t: Txn, t': Txn)
    requires t'.op == t.op && !t'.pc.Begun? && !t'.pc.Done? && Own(world, t')
    ensures Continues(world, RunsOn(world, t'), t)
  {
    assert world.(providerIds := world.providerIds, datasetIds := world.datasetIds) == world;
  }

  lemma MidwayOnward(world: World, t: Txn, t': Txn, dimensions: seq<Dimension>, cells: map<int, Content>)
    requires t.op.Replace? && Passed(world.setting, t') && t'.op == t.op && !t'.pc.Begun? && !t'.pc.Done?
    requires CounterOk(world, t') && Midway(world, t', dimensions, cells)
    requires dimensions == DimensionsSoFar(world, t') && cells == CellsSoFar(t')
    ensures Continues(world, RunsOn(world, t'), t)
  {
    Onward(world, t, t');
  }

  lemma FoundIsWhole(world: World, t: Txn)
    requires Own(world, t) && t.op.Replace? && t.pc.Emptying? && FaithfulAt(world, t.datasetId)
    ensures Exists(world, t) && CellsAscend(Current(world, t).r.cells)
    ensures t.op.r.replace ==> Midway(world, t, Current(world, t).r.dimensions, CellMap(Current(world, t).r.cells))
  {
    assert Live(world, t.datasetId);
    OverlaidRows(world.db.dimensions, t.w.dimensions, t.datasetId);
    OverlaidRows(world.db.observations, t.w.observations, t.datasetId);
  }

  lemma StillOnly(w: Writes, v: Writes, d: nat)
    requires OnlyTouches(w, d)
    requires v.datasets.Keys <= w.datasets.Keys + {d} && v.locked <= w.locked + {d}
    requires v.dimensions.Keys <= w.dimensions.Keys + {d} && v.observations.Keys <= w.observations.Keys + {d}
    ensures OnlyTouches(v, d)
  {
    forall e: nat | Touches(v, e) ensures e == d {
      assert Touches(w, e) || e == d;
    }
  }

  /** Rewriting rows that belong to the dataset leaves the rest as it was. */
  lemma StillConfined(world: World, t: Txn, t': Txn)
    requires t.op.Replace? && Confined(world, t) && DatasetRead(world, t)
    requires t'.op == t.op && t'.w.providers == t.w.providers
    requires t'.w.datasets == t.w.datasets && OnlyTouches(t'.w, t.datasetId)
    ensures Confined(world, t')
  {
  }

  lemma StillChosen(world: World, t: Txn, t': Txn)
    requires t.op.Replace? && Chosen(world, t)
    requires t' == t.(pc := t'.pc, w := t'.w)
    requires t'.w.providers == t.w.providers && t'.w.datasets == t.w.datasets && OnlyTouches(t'.w, t.datasetId)
    ensures Chosen(world, t')
  {
    assert Sees(world, t').providers == Sees(world, t).providers;
    assert Sees(world, t').datasets == Sees(world, t).datasets;
  }

  lemma DimensionsRewritten(world: World, t: Txn, t': Txn, before: seq<Dimension>, after: seq<Dimension>,
                            cells: map<int, Content>)
    requires Midway(world, t, before, cells)
    requires t' == t.(pc := t'.pc, w := t.w.(dimensions := t'.w.dimensions))
    requires t'.w.dimensions.Keys == t.w.dimensions.Keys + {t.datasetId}
    requires RowsOf(Sees(world, t').dimensions, t.datasetId) == ByPosition(after)
    ensures Midway(world, t', after, cells)
  {
    StillOnly(t.w, t'.w, t.datasetId);
    StillConfined(world, t, t');
    StillChosen(world, t, t');
  }

  lemma ObservationsRewritten(world: World, t: Txn, t': Txn, dimensions: seq<Dimension>, before: map<int, Content>,
                              after: map<int, Content>)
    requires Midway(world, t, dimensions, before)
    requires t' == t.(pc := t'.pc, w := t.w.(observations := t'.w.observations))
    requires t'.w.observations.Keys == t.w.observations.Keys + {t.datasetId}
    requires RowsOf(Sees(world, t').observations, t.datasetId) == after
    ensures Midway(world, t', dimensions, after)
  {
    StillOnly(t.w, t'.w, t.datasetId);
    StillConfined(world, t, t');
    StillChosen(world, t, t');
  }

  /** No constraint stands in the way of dimension `i` after the ones before it. */
  ghost predicate DimensionFits(r: Replacement, i: nat)
    requires i < |r.dimensions|
  {
    && r.dimensions[i].position == i
    && DimensionAllowed(ByPosition(r.dimensions[..i]), r.dimensions[i].(categories := []))
    && CategoriesAllowed(r.dimensions[i].categories)
  }

  lemma EveryDimensionFits(r: Replacement, normalize: Normalizer, i: nat)
    requires WellFormedReplacement(r, SCHEMA_MAX_CELLS) && WellCodedReplacement(r, normalize) && i < |r.dimensions|
    ensures DimensionFits(r, i)
  {
    var axes := AxesOf(r.dimensions);
    SortedIsWellFormed(axes);
    assert axes[i] == AxisOf(r.dimensions[i]);
    forall k | 0 <= k < i ensures r.dimensions[k].code.key != r.dimensions[i].code.key {
      assert axes[k].key != axes[i].key;
    }
    CodedIsAllowed(r.dimensions[i].code, normalize);
    CategoriesFit(r.dimensions[i], normalize);
  }

  lemma CategoriesFit(dimension: Dimension, normalize: Normalizer)
    requires DimensionCoded(dimension, normalize)
    requires forall j :: 0 <= j < |dimension.categories| ==> dimension.categories[j].position == j
    requires Distinct(AxisOf(dimension).cats)
    ensures CategoriesAllowed(dimension.categories)
  {
    forall j | 0 <= j < |dimension.categories| ensures CodeAllowed(dimension.categories[j].code) {
      CodedIsAllowed(dimension.categories[j].code, normalize);
    }
    forall j, k | 0 <= j < k < |dimension.categories|
      ensures dimension.categories[j].code.key != dimension.categories[k].code.key
    {
      assert AxisOf(dimension).cats[j] != AxisOf(dimension).cats[k];
    }
  }

  lemma ByPositionSnoc(dimensions: seq<Dimension>, row: Dimension)
    ensures ByPosition(dimensions) + map[|dimensions| := row] == ByPosition(dimensions + [row])
  {
  }

  lemma ByPositionAgain(dimensions: seq<Dimension>, i: nat, draft: Dimension)
    requires i < |dimensions|
    ensures i in ByPosition(dimensions[..i] + [draft])
    ensures ByPosition(dimensions[..i] + [draft]) + map[i := dimensions[i]] == ByPosition(dimensions[..i + 1])
  {
  }

  lemma PutDimension(world: World, t: Txn, t': Txn, before: seq<Dimension>, row: Dimension, after: seq<Dimension>)
    requires Midway(world, t, before, map[])
    requires t' == t.(pc := t'.pc, w := WithDimension(world, t, row))
    requires ByPosition(before) + map[row.position := row] == ByPosition(after)
    ensures Midway(world, t', after, map[])
  {
    PutRowsSeen(world.db.dimensions, t.w.dimensions, t.datasetId, map[row.position := row]);
    DimensionsRewritten(world, t, t', before, after, map[]);
  }

  lemma InsertDimensionOk(world: World, t: Txn, i: nat) returns (t': Txn)
    requires t.op.Replace? && i < |t.op.r.dimensions|
    requires DimensionFits(t.op.r, i) && CodeHolds(t.op.r.dimensions[i].code)
    requires Midway(world, t, t.op.r.dimensions[..i], map[])
    ensures InsertDimension(world, t, i) == RunsOn(world, t') && t'.op == t.op && t'.pc == CategoriesOf(i)
    ensures t'.existed == t.existed
    ensures Midway(world, t', t.op.r.dimensions[..i] + [t.op.r.dimensions[i].(categories := [])], map[])
  {
    var dimensions := t.op.r.dimensions;
    var row := dimensions[i].(categories := []);
    ByPositionSnoc(dimensions[..i], row);
    t' := t.(pc := CategoriesOf(i), w := WithDimension(world, t, row));
    PutDimension(world, t, t', dimensions[..i], row, dimensions[..i] + [row]);
  }

  lemma CopyCategoriesOk(world: World, t: Txn, i: nat) returns (t': Txn)
    requires t.op.Replace? && i < |t.op.r.dimensions|
    requires DimensionFits(t.op.r, i) && CategoriesHold(t.op.r.dimensions[i])
    requires Midway(world, t, t.op.r.dimensions[..i] + [t.op.r.dimensions[i].(categories := [])], map[])
    ensures CopyCategories(world, t, i) == RunsOn(world, t') && t'.op == t.op && t'.pc == Dimensions(i + 1)
    ensures t'.existed == t.existed
    ensures Midway(world, t', t.op.r.dimensions[..i + 1], map[])
  {
    var dimensions := t.op.r.dimensions;
    var draft := dimensions[i].(categories := []);
    ByPositionAgain(dimensions, i, draft);
    t' := t.(pc := Dimensions(i + 1), w := WithDimension(world, t, dimensions[i]));
    PutDimension(world, t, t', dimensions[..i] + [draft], dimensions[i], dimensions[..i + 1]);
  }

  lemma DeleteObservationsOk(world: World, t: Txn) returns (t': Txn)
    requires Own(world, t) && t.op.Replace? && t.pc.Emptying? && t.op.r.replace && FaithfulAt(world, t.datasetId)
    ensures DeleteObservations(world, t) == RunsOn(world, t') && t'.op == t.op && t'.pc == Clearing && Exists(world, t')
    ensures Midway(world, t', Current(world, t').r.dimensions, map[])
  {
    FoundIsWhole(world, t);
    DeleteRowsSeen(world.db.observations, t.w.observations, t.datasetId);
    t' := t.(pc := Clearing, w := WithoutObservations(world, t, t.datasetId));
    ObservationsRewritten(world, t, t', Current(world, t).r.dimensions, CellMap(Current(world, t).r.cells), map[]);
  }

  lemma DeleteDimensionsOk(world: World, t: Txn, before: seq<Dimension>) returns (t': Txn)
    requires Midway(world, t, before, map[])
    ensures DeleteDimensions(world, t) == RunsOn(world, t') && t'.op == t.op && t'.pc == Dimensions(0)
    ensures Midway(world, t', [], map[])
  {
    DeleteRowsSeen(world.db.dimensions, t.w.dimensions, t.datasetId);
    t' := t.(pc := Dimensions(0), w := WithoutDimensions(world, t, t.datasetId));
    DimensionsRewritten(world, t, t', before, [], map[]);
  }

  lemma CellsFit(r: Replacement)
    requires WellFormedReplacement(r, SCHEMA_MAX_CELLS)
    ensures CellsAllowed(map[], r.cells)
  {
  }

  lemma CellsCopied(world: World, t: Txn, t': Txn, cells: map<int, Content>)
    requires t.op.Replace? && Midway(world, t, t.op.r.dimensions, map[])
    requires t' == t.(pc := t'.pc, w := t.w.(observations := PutRows(t.w.observations, t.datasetId, cells)))
    ensures Midway(world, t', t.op.r.dimensions, cells)
  {
    PutFirstRowsSeen(world.db.observations, t.w.observations, t.datasetId, cells);
    ObservationsRewritten(world, t, t', t.op.r.dimensions, map[], cells);
  }

  lemma CopyCellsOk(world: World, t: Txn) returns (t': Txn)
    requires t.op.Replace? && CellsAllowed(map[], t.op.r.cells) && CellsHold(t.op.r.cells)
    requires Midway(world, t, t.op.r.dimensions, map[])
    ensures CopyCells(world, t) == RunsOn(world, t') && t'.op == t.op && t'.pc == Updating && t'.existed == t.existed
    ensures Midway(world, t', t.op.r.dimensions, CellMap(t.op.r.cells))
  {
    t' := t.(pc := Updating, w := t.w.(observations := PutRows(t.w.observations, t.datasetId, CellMap(t.op.r.cells))));
    CellsCopied(world, t, t', CellMap(t.op.r.cells));
  }

  lemma ProviderDrawn(world: World, t: Txn)
    requires ProvidersFaithful(world) && t.op.Replace? && ProviderRead(world, t)
    ensures DrawnFor(world, t.op.r.provider.key, t.providerId)
    ensures t.providerSpelling == ProviderAfter(world.catalog, t.op.r)
  {
    var p := t.op.r.provider.key;
    if p in world.db.providers {
      assert ProviderFaithful(world, p, world.db.providers[p]);
    }
  }

  lemma RowPut(world: World, t: Txn, t': Txn, row: DatasetRow)
    requires t'.w == t.w.(datasets := t.w.datasets[t.datasetId := Some(row)])
    ensures Sees(world, t').datasets == Sees(world, t).datasets[t.datasetId := row]
    ensures Sees(world, t').providers == Sees(world, t).providers
    ensures Sees(world, t').dimensions == Sees(world, t).dimensions
    ensures Sees(world, t').observations == Sees(world, t).observations
  {
  }

  lemma RowConfined(world: World, t: Txn, t': Txn, row: DatasetRow)
    requires t.op.Replace? && Confined(world, t) && DatasetRead(world, t) && OnlyTouches(t'.w, t.datasetId)
    requires t'.op == t.op && t'.w == t.w.(datasets := t.w.datasets[t.datasetId := Some(row)])
    requires WrittenRowOk(world, IdentityOf(t.op), Some(row))
    ensures Confined(world, t')
  {
  }

  lemma RowRewritten(world: World, t: Txn, t': Txn, row: DatasetRow, dimensions: seq<Dimension>,
                     cells: map<int, Content>)
    requires Midway(world, t, dimensions, cells) && DrawnFor(world, t.op.r.provider.key, t.providerId)
    requires t' == t.(pc := t'.pc, w := t.w.(datasets := t.w.datasets[t.datasetId := Some(row)]))
    requires row.providerId == t.providerId && row.key == t.op.r.dataset.key
    requires row.spelling == EntryAfter(world.catalog, t.op, 0).spelling
    ensures Sees(world, t').datasets == Sees(world, t).datasets[t.datasetId := row]
    ensures Midway(world, t', dimensions, cells)
  {
    StillOnly(t.w, t'.w, t.datasetId);
    RowPut(world, t, t', row);
    RowConfined(world, t, t', row);
  }

  lemma UpdateDatasetOk(world: World, t: Txn, cells: map<int, Content>) returns (t': Txn)
    requires ProvidersFaithful(world) && t.op.Replace? && t.op.r.sourceStamp in world.setting.jsonb
    requires CountsAllowed(t.op.r.cellCount, t.op.r.valuedCount)
    requires Midway(world, t, t.op.r.dimensions, cells)
    ensures UpdateDataset(world, t) == RunsOn(world, t') && t'.op == t.op && t'.existed == t.existed
    ensures t'.pc == Committing(Answer(world.setting, world.catalog, t.op)) && RowFinished(world, t')
    ensures Midway(world, t', t.op.r.dimensions, cells)
  {
    var r := t.op.r;
    ProviderDrawn(world, t);
    var row := RowFor(world.setting, t.providerId, r.dataset.key, EntryAfter(world.catalog, t.op, 0).spelling, r);
    t' := t.(pc := Committing(Answer(world.setting, world.catalog, t.op)),
             w := t.w.(datasets := t.w.datasets[t.datasetId := Some(row)]));
    RowRewritten(world, t, t', row, r.dimensions, cells);
    UpdateAnswers(world, t);
  }

  lemma UpdateAnswers(world: World, t: Txn)
    requires t.op.Replace? && DatasetRead(world, t) && MayReplace(t) && SeesRow(world, t)
    requires CountsAllowed(t.op.r.cellCount, t.op.r.valuedCount)
    requires t.providerSpelling == ProviderAfter(world.catalog, t.op.r) && t.op.r.sourceStamp in world.setting.jsonb
    ensures UpdateDataset(world, t).Runs?
    ensures UpdateDataset(world, t).txn.pc == Committing(Answer(world.setting, world.catalog, t.op))
  {
  }

  // Each statement of Delete.

  lemma FindErased(world: World, t: Txn)
    requires Faithful(world) && t.w.providers == map[] && t.w.datasets == map[]
    ensures FindByKeys(Sees(world, t), IdentityOf(t.op))
            == if Exists(world, t) then Some(Current(world, t).id) else None
    ensures EntryOk(world, IdentityOf(t.op))
  {
    var i := IdentityOf(t.op);
    assert EntryOk(world, i);
    OverlayNothing(world.db.providers);
    SeesCommittedDatasets(world, t);
    if i.provider in world.db.providers {
      assert ProviderFaithful(world, i.provider, world.db.providers[i.provider]);
      FindCurrent(world, i, world.db.providers[i.provider].id);
    }
  }

  /** Its observations are gone, the rest is as committed. */
  ghost predicate Emptied(world: World, t: Txn) {
    Confined(world, t) && Erased(world, t) && t.w.datasets == map[] && t.w.dimensions == map[]
  }

  lemma ErasedCells(world: World, t: Txn, t': Txn, d: nat)
    requires t.w == NO_WRITES && Exists(world, t) && d == Current(world, t).id
    requires d < |world.datasetIds| && world.datasetIds[d] == IdentityOf(t.op)
    requires t' == t.(pc := t'.pc, w := WithoutObservations(world, t, d))
    ensures Emptied(world, t')
  {
    DeleteRowsSeen(world.db.observations, t.w.observations, d);
    StillOnly(t.w, t'.w, d);
  }

  lemma EraseObservationsOk(world: World, t: Txn) returns (t': Txn)
    requires EntryOk(world, IdentityOf(t.op)) && t.w == NO_WRITES && Sendable(t.op)
    requires FindByKeys(Sees(world, t), IdentityOf(t.op))
             == if Exists(world, t) then Some(Current(world, t).id) else None
    ensures EraseObservations(world, t) == RunsOn(world, t') && t'.op == t.op && t'.pc == Erasing
    ensures Emptied(world, t')
  {
    t' := t.(pc := Erasing);
    if Exists(world, t) {
      var d := Current(world, t).id;
      t' := t'.(w := WithoutObservations(world, t, d));
      ErasedCells(world, t, t', d);
    }
  }

  lemma ErasedRow(world: World, t: Txn, t': Txn, d: nat)
    requires Confined(world, t) && Exists(world, t) && d == Current(world, t).id
    requires Erased(world, t) && t.w.datasets == map[]
    requires d < |world.datasetIds| && world.datasetIds[d] == IdentityOf(t.op)
    requires t' == t.(pc := t'.pc, w := WithoutDimensions(world, t, d).(datasets := t.w.datasets[d := None]))
    ensures Confined(world, t') && Erased(world, t') && Gone(world, t', d)
  {
    DeleteRowsSeen(world.db.dimensions, t.w.dimensions, d);
    StillOnly(t.w, t'.w, d);
  }

  lemma EraseDatasetOk(world: World, t: Txn) returns (t': Txn)
    requires EntryOk(world, IdentityOf(t.op)) && t.op.Delete? && Emptied(world, t) && Sendable(t.op)
    requires FindByKeys(Sees(world, t), IdentityOf(t.op))
             == if Exists(world, t) then Some(Current(world, t).id) else None
    ensures EraseDataset(world, t) == RunsOn(world, t') && t'.op == t.op && t'.pc == Committing(Removed)
    ensures Removing(world, t')
  {
    t' := t.(pc := Committing(Removed));
    if Exists(world, t) {
      var d := Current(world, t).id;
      t' := t'.(w := WithoutDimensions(world, t, d).(datasets := t.w.datasets[d := None]));
      ErasedRow(world, t, t', d);
    }
  }
}
