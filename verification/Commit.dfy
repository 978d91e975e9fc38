/** A commit takes the tables from one faithful state to the next, and no transaction on another identity notices. */
module Commit {
  import opened Model
  import opened Structure
  import opened Database
  import opened Protocol
  import opened Invariant
  import opened Statements

  // What other transactions notice.

  ghost predicate SameRows(db: Db, db': Db, d: nat) {
    && (d in db.datasets <==> d in db'.datasets) && (d in db.datasets ==> db.datasets[d] == db'.datasets[d])
    && RowsOf(db.dimensions, d) == RowsOf(db'.dimensions, d)
    && RowsOf(db.observations, d) == RowsOf(db'.observations, d)
  }

  /** As far as identity i is concerned, nothing happened. */
  ghost predicate SameFor(world: World, world': World, i: Identity) {
    && world.setting == world'.setting
    && world.providerIds <= world'.providerIds && world.datasetIds <= world'.datasetIds
    && (i in world.catalog.datasets <==> i in world'.catalog.datasets)
    && (i in world.catalog.datasets ==> world.catalog.datasets[i] == world'.catalog.datasets[i])
    && (forall d: nat :: d < |world.datasetIds| && world.datasetIds[d] == i ==> SameRows(world.db, world'.db, d))
  }

  ghost predicate SameProvider(world: World, world': World, p: Key) {
    && (p in world.db.providers <==> p in world'.db.providers)
    && (p in world.db.providers ==> world.db.providers[p] == world'.db.providers[p])
    && (p in world.catalog.providers <==> p in world'.catalog.providers)
    && (p in world.catalog.providers ==> world.catalog.providers[p] == world'.catalog.providers[p])
  }

  lemma SeenSame(world: World, world': World, t: Txn, d: nat)
    requires SameRows(world.db, world'.db, d)
    ensures SameRows(Sees(world, t), Sees(world', t), d)
  {
    OverlaidRows(world.db.dimensions, t.w.dimensions, d);
    OverlaidRows(world'.db.dimensions, t.w.dimensions, d);
    OverlaidRows(world.db.observations, t.w.observations, d);
    OverlaidRows(world'.db.observations, t.w.observations, d);
  }

  lemma IdleStays(world: World, world': World, t: Txn)
    requires Own(world, t) && (t.pc.Begun? || t.pc.Done?) && world.setting == world'.setting
    ensures Own(world', t)
  {
  }

  lemma ConfinedStays(world: World, world': World, t: Txn)
    requires Confined(world, t) && world.providerIds <= world'.providerIds && world.datasetIds <= world'.datasetIds
    ensures Confined(world', t)
  {
    forall d | d in t.w.datasets ensures WrittenRowOk(world', IdentityOf(t.op), t.w.datasets[d]) {
      assert WrittenRowOk(world, IdentityOf(t.op), t.w.datasets[d]);
    }
  }

  lemma ProviderStays(world: World, world': World, t: Txn)
    requires t.op.Replace? && SameProvider(world, world', t.op.r.provider.key)
    requires world.providerIds <= world'.providerIds
    ensures ProviderSettled(world, t) ==> ProviderSettled(world', t)
    ensures ProviderRead(world, t) ==> ProviderRead(world', t)
  {
  }

  lemma DatasetStays(world: World, world': World, t: Txn)
    requires t.op.Replace? && SameFor(world, world', IdentityOf(t.op)) && DatasetRead(world, t)
    ensures DatasetRead(world', t) && SameRows(world.db, world'.db, t.datasetId)
  {
  }

  lemma MidwayStays(world: World, world': World, t: Txn, dimensions: seq<Dimension>, cells: map<int, Content>)
    requires Midway(world, t, dimensions, cells)
    requires SameFor(world, world', IdentityOf(t.op)) && SameProvider(world, world', t.op.r.provider.key)
    ensures Midway(world', t, dimensions, cells)
    ensures SameRows(Sees(world, t), Sees(world', t), t.datasetId)
  {
    ConfinedStays(world, world', t);
    ProviderStays(world, world', t);
    DatasetStays(world, world', t);
    SeenSame(world, world', t, t.datasetId);
  }

  lemma ReadingStays(world: World, world': World, t: Txn)
    requires Own(world, t) && t.op.Replace?
    requires t.pc.ProviderInserted? || t.pc.ProviderSelected? || t.pc.Inserting? || t.pc.Emptying?
    requires SameFor(world, world', IdentityOf(t.op)) && SameProvider(world, world', t.op.r.provider.key)
    ensures Own(world', t)
  {
    ConfinedStays(world, world', t);
    ProviderStays(world, world', t);
    if t.pc.Emptying? {
      DatasetStays(world, world', t);
    }
  }

  lemma WritingStays(world: World, world': World, t: Txn)
    requires Own(world, t) && t.op.Replace?
    requires t.pc.Clearing? || t.pc.Dimensions? || t.pc.CategoriesOf? || t.pc.Updating? || t.pc.Committing?
    requires SameFor(world, world', IdentityOf(t.op)) && SameProvider(world, world', t.op.r.provider.key)
    ensures Own(world', t)
  {
    OwnMidway(world, t);
    MidwayStays(world, world', t, DimensionsSoFar(world, t), CellsSoFar(t));
  }

  lemma ReplaceStays(world: World, world': World, t: Txn)
    requires Own(world, t) && t.op.Replace? && !t.pc.Begun? && !t.pc.Locked? && !t.pc.Done?
    requires SameFor(world, world', IdentityOf(t.op)) && SameProvider(world, world', t.op.r.provider.key)
    ensures Own(world', t)
  {
    if t.pc.ProviderInserted? || t.pc.ProviderSelected? || t.pc.Inserting? || t.pc.Emptying? {
      ReadingStays(world, world', t);
    } else {
      WritingStays(world, world', t);
    }
  }

  lemma DeleteStays(world: World, world': World, t: Txn)
    requires Own(world, t) && t.op.Delete? && SameFor(world, world', IdentityOf(t.op))
    requires Exists(world, t) ==>
      Current(world, t).id < |world.datasetIds| && world.datasetIds[Current(world, t).id] == IdentityOf(t.op)
    ensures Own(world', t)
  {
    ConfinedStays(world, world', t);
    if Exists(world, t) {
      SeenSame(world, world', t, Current(world, t).id);
    }
  }

  /** A transaction past the insert of its provider. */
  predicate KnowsProvider(t: Txn) {
    t.op.Replace? && !t.pc.Begun? && !t.pc.Locked? && !t.pc.Done?
  }

  lemma OwnStays(world: World, world': World, t: Txn)
    requires Faithful(world) && Own(world, t) && world.setting == world'.setting
    requires !t.pc.Begun? && !t.pc.Done? ==> SameFor(world, world', IdentityOf(t.op))
    requires KnowsProvider(t) ==> SameProvider(world, world', t.op.r.provider.key)
    ensures Own(world', t)
  {
    if t.pc.Begun? || t.pc.Done? {
      IdleStays(world, world', t);
    } else if t.op.Delete? {
      assert EntryOk(world, IdentityOf(t.op));
      DeleteStays(world, world', t);
    } else if t.pc.Locked? {
      ConfinedStays(world, world', t);
    } else {
      ReplaceStays(world, world', t);
    }
  }

  // The commit.

  /** The world after an operation ended with this database. */
  ghost function Committed(world: World, t: Txn, db: Db): World {
    world.(db := db, catalog := Perform(world.catalog, t.op, t.datasetId))
  }

  lemma Unwritten(world: World, t: Txn, d: nat)
    requires !Touches(t.w, d)
    ensures SameRows(world.db, Sees(world, t), d)
  {
    OverlaidRows(world.db.dimensions, t.w.dimensions, d);
    OverlaidRows(world.db.observations, t.w.observations, d);
  }

  lemma FaithfulStays(world: World, world': World, d: nat)
    requires FaithfulAt(world, d) && SameRows(world.db, world'.db, d)
    requires world'.setting == world.setting && world'.datasetIds == world.datasetIds
    requires (Live(world', d) <==> Live(world, d))
    requires Live(world, d) ==>
      world'.catalog.datasets[world.datasetIds[d]] == world.catalog.datasets[world.datasetIds[d]]
    requires Live(world, d) ==> SameProvider(world, world', world.datasetIds[d].provider)
    ensures FaithfulAt(world', d)
  {
  }

  /** At its commit a replacement has written exactly itself. */
  ghost predicate Complete(world: World, t: Txn)
    requires t.op.Replace? && DistinctIndexes(t.op.r.cells)
  {
    && Passed(world.setting, t) && t.pc.Committing?
    && Midway(world, t, t.op.r.dimensions, CellMap(t.op.r.cells)) && RowFinished(world, t)
  }

  /** It writes one provider at most, its own, and one dataset. */
  ghost predicate Settled(world: World, t: Txn)
    requires t.op.Replace?
  {
    && ProviderRead(world, t) && DatasetRead(world, t) && !Refused(world.catalog, t.op)
    && CodedBy(t.op.r.provider, world.setting.normalize) && CodeHolds(t.op.r.provider)
    && forall p :: p in t.w.providers ==> p == t.op.r.provider.key
  }

  lemma CompleteIsSettled(world: World, t: Txn)
    requires t.op.Replace? && DistinctIndexes(t.op.r.cells) && Complete(world, t)
    requires CodedBy(t.op.r.provider, world.setting.normalize)
    ensures Settled(world, t)
  {
  }

  lemma ReplaceProvider(world: World, t: Txn, q: Key)
    requires ProvidersFaithful(world) && t.op.Replace? && Settled(world, t)
    ensures q in world.db.providers || q !in t.w.providers ==>
      SameProvider(world, Committed(world, t, Sees(world, t)), q)
    ensures q in Sees(world, t).providers ==>
      ProviderFaithful(Committed(world, t, Sees(world, t)), q, Sees(world, t).providers[q])
  {
    ProviderDrawn(world, t);
    if q in world.db.providers {
      assert ProviderFaithful(world, q, world.db.providers[q]);
    }
  }

  lemma ReplaceProviders(world: World, t: Txn)
    requires ProvidersFaithful(world) && t.op.Replace? && Settled(world, t)
    ensures ProvidersFaithful(Committed(world, t, Sees(world, t)))
  {
    ProviderDrawn(world, t);
    var world' := Committed(world, t, Sees(world, t));
    forall q | q in world'.db.providers ensures ProviderFaithful(world', q, world'.db.providers[q]) {
      ReplaceProvider(world, t, q);
    }
  }

  /** The new version of its own dataset. */
  lemma ReplacedHere(world: World, t: Txn)
    requires Faithful(world) && t.op.Replace? && CellsAscend(t.op.r.cells) && Complete(world, t) && Settled(world, t)
    ensures FaithfulAt(Committed(world, t, Sees(world, t)), t.datasetId)
    ensures EntryOk(Committed(world, t, Sees(world, t)), IdentityOf(t.op))
  {
    ReplaceProviders(world, t);
    var world', i := Committed(world, t, Sees(world, t)), IdentityOf(t.op);
    assert EntryOk(world, i);
    assert world'.catalog.datasets[i].id == t.datasetId && world'.catalog.datasets[i].r == t.op.r;
    assert Live(world', t.datasetId);
  }

  lemma LiveElsewhere(world: World, t: Txn, d: nat)
    requires EntryOk(world, IdentityOf(t.op)) && t.op.Replace? && Settled(world, t) && d != t.datasetId
    ensures Live(Committed(world, t, Sees(world, t)), d) <==> Live(world, d)
    ensures Live(world, d) ==> world.datasetIds[d] != IdentityOf(t.op)
  {
  }

  lemma WritesElsewhere(world: World, t: Txn, d: nat)
    requires t.op.Replace? && DatasetRead(world, t) && d != t.datasetId
    ensures SameRows(world.db, Sees(world, t), d)
  {
    assert !Touches(t.w, d);
    Unwritten(world, t, d);
  }

  lemma EntryElsewhere(world: World, t: Txn, i: Identity)
    requires t.op.Replace? && i in world.catalog.datasets && i != IdentityOf(t.op)
    ensures var datasets := Perform(world.catalog, t.op, t.datasetId).datasets;
      i in datasets && datasets[i] == world.catalog.datasets[i]
  {
  }

  lemma SameElsewhere(world: World, t: Txn, d: nat)
    requires ProvidersFaithful(world) && FaithfulAt(world, d) && Live(world, d)
    requires t.op.Replace? && Settled(world, t) && world.datasetIds[d] != IdentityOf(t.op)
    ensures var world', i := Committed(world, t, Sees(world, t)), world.datasetIds[d];
      && i in world'.catalog.datasets && world'.catalog.datasets[i] == world.catalog.datasets[i]
      && SameProvider(world, world', i.provider)
  {
    EntryElsewhere(world, t, world.datasetIds[d]);
    ReplaceProvider(world, t, world.datasetIds[d].provider);
  }

  /** Every other dataset: current ones keep their rows, old ids keep having none. */
  lemma ReplacedElsewhere(world: World, t: Txn, d: nat)
    requires ProvidersFaithful(world) && EntryOk(world, IdentityOf(t.op)) && FaithfulAt(world, d)
    requires t.op.Replace? && Settled(world, t) && d != t.datasetId
    ensures FaithfulAt(Committed(world, t, Sees(world, t)), d)
  {
    LiveElsewhere(world, t, d);
    WritesElsewhere(world, t, d);
    if Live(world, d) {
      SameElsewhere(world, t, d);
    }
    FaithfulStays(world, Committed(world, t, Sees(world, t)), d);
  }

  lemma ReplacedEntries(world: World, t: Txn, j: Identity)
    requires EntryOk(world, j) && t.op.Replace? && Settled(world, t) && j != IdentityOf(t.op)
    ensures EntryOk(Committed(world, t, Sees(world, t)), j)
  {
  }

  lemma ReplacedHeld(world: World, t: Txn, j: Identity)
    requires EntryHeld(world, j) && t.op.Replace?
    requires Submitted(world.setting, t.op) && ContentsHold(world.setting, t.op.r)
    requires TextHolds(t.op.r.provider.key) && TextHolds(t.op.r.dataset.key)
    requires Exists(world, t) || TextHolds(t.op.r.dataset.spelling)
    ensures EntryHeld(Committed(world, t, Sees(world, t)), j)
  {
  }

  lemma PassedIsHeld(setting: Setting, t: Txn)
    requires t.op.Replace? && Passed(setting, t) && t.pc.Committing?
    ensures ContentsHold(setting, t.op.r)
    ensures TextHolds(t.op.r.provider.key) && TextHolds(t.op.r.dataset.key)
    ensures t.existed || TextHolds(t.op.r.dataset.spelling)
  {
  }

  lemma ReplacedAllHeld(world: World, t: Txn)
    requires forall j :: EntryHeld(world, j)
    requires t.op.Replace? && Submitted(world.setting, t.op) && Passed(world.setting, t) && t.pc.Committing?
    requires t.existed <==> Exists(world, t)
    ensures forall j :: EntryHeld(Committed(world, t, Sees(world, t)), j)
  {
    PassedIsHeld(world.setting, t);
    forall j ensures EntryHeld(Committed(world, t, Sees(world, t)), j) {
      ReplacedHeld(world, t, j);
    }
  }

  lemma ReplaceCommits(world: World, t: Txn)
    requires Faithful(world) && t.op.Replace? && Submitted(world.setting, t.op) && Complete(world, t)
    ensures Faithful(Committed(world, t, Sees(world, t)))
  {
    var world' := Committed(world, t, Sees(world, t));
    CompleteIsSettled(world, t);
    ReplaceProviders(world, t);
    ReplacedHere(world, t);
    assert EntryOk(world, IdentityOf(t.op));
    forall d: nat ensures FaithfulAt(world', d) {
      if d != t.datasetId {
        ReplacedElsewhere(world, t, d);
      }
    }
    forall j ensures EntryOk(world', j) {
      if j != IdentityOf(t.op) {
        ReplacedEntries(world, t, j);
      }
    }
    ReplacedAllHeld(world, t);
  }

  lemma ReplaceUnnoticed(world: World, t: Txn, j: Identity)
    requires t.op.Replace? && Settled(world, t) && j != IdentityOf(t.op)
    ensures SameFor(world, Committed(world, t, Sees(world, t)), j)
  {
    forall d: nat | d < |world.datasetIds| && world.datasetIds[d] == j ensures SameRows(world.db, Sees(world, t), d) {
      WritesElsewhere(world, t, d);
    }
  }

  lemma DeletedElsewhere(world: World, t: Txn, d: nat)
    requires EntryOk(world, IdentityOf(t.op)) && t.op.Delete? && Erased(world, t)
    requires !(Exists(world, t) && d == Current(world, t).id)
    ensures SameRows(world.db, Sees(world, t), d)
    ensures Live(Committed(world, t, Sees(world, t)), d) <==> Live(world, d)
    ensures Live(world, d) ==> world.datasetIds[d] != IdentityOf(t.op)
  {
    assert !Touches(t.w, d);
    Unwritten(world, t, d);
  }

  lemma DeletedHere(world: World, t: Txn)
    requires EntryOk(world, IdentityOf(t.op)) && Removing(world, t) && Exists(world, t)
    ensures FaithfulAt(Committed(world, t, Sees(world, t)), Current(world, t).id)
  {
    assert !Live(Committed(world, t, Sees(world, t)), Current(world, t).id);
  }

  lemma DeletedAt(world: World, t: Txn, d: nat)
    requires EntryOk(world, IdentityOf(t.op)) && FaithfulAt(world, d) && Removing(world, t)
    requires Sees(world, t).providers == world.db.providers
    ensures FaithfulAt(Committed(world, t, Sees(world, t)), d)
  {
    if Exists(world, t) && d == Current(world, t).id {
      DeletedHere(world, t);
    } else {
      DeletedElsewhere(world, t, d);
      FaithfulStays(world, Committed(world, t, Sees(world, t)), d);
    }
  }

  lemma DeleteProviders(world: World, t: Txn)
    requires ProvidersFaithful(world) && t.op.Delete? && t.w.providers == map[]
    ensures Sees(world, t).providers == world.db.providers
    ensures Committed(world, t, Sees(world, t)).catalog.providers == world.catalog.providers
    ensures ProvidersFaithful(Committed(world, t, Sees(world, t)))
  {
    OverlayNothing(world.db.providers);
    var world' := Committed(world, t, Sees(world, t));
    forall p | p in world'.db.providers ensures ProviderFaithful(world', p, world'.db.providers[p]) {
      assert ProviderFaithful(world, p, world.db.providers[p]);
    }
  }

  lemma DeletedEntries(world: World, t: Txn, j: Identity)
    requires EntryOk(world, j) && EntryHeld(world, j) && t.op.Delete?
    ensures EntryOk(Committed(world, t, Sees(world, t)), j) && EntryHeld(Committed(world, t, Sees(world, t)), j)
  {
  }

  lemma DeleteCommits(world: World, t: Txn)
    requires Faithful(world) && Removing(world, t)
    ensures Faithful(Committed(world, t, Sees(world, t)))
  {
    DeleteProviders(world, t);
    assert EntryOk(world, IdentityOf(t.op));
    forall d: nat ensures FaithfulAt(Committed(world, t, Sees(world, t)), d) {
      DeletedAt(world, t, d);
    }
    forall j
      ensures EntryOk(Committed(world, t, Sees(world, t)), j) && EntryHeld(Committed(world, t, Sees(world, t)), j)
    {
      assert EntryHeld(world, j);
      DeletedEntries(world, t, j);
    }
  }

  lemma DeleteUnnoticed(world: World, t: Txn, j: Identity)
    requires EntryOk(world, IdentityOf(t.op)) && t.op.Delete? && Erased(world, t) && j != IdentityOf(t.op)
    ensures SameFor(world, Committed(world, t, Sees(world, t)), j)
  {
    forall d: nat | d < |world.datasetIds| && world.datasetIds[d] == j ensures SameRows(world.db, Sees(world, t), d) {
      DeletedElsewhere(world, t, d);
    }
  }
}
