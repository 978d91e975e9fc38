/** A statement of a running transaction never fails on a constraint or a missing row, only on a text that the columns
    cannot hold; it keeps the transaction as it should be, and answers what the history so far says. */
module Statements {
  import opened Basics
  import opened Model
  import opened Database
  import opened Protocol
  import opened Invariant

  /** It ends with the answer of the serial history, and everything the operation sends can be held. */
  ghost predicate Ended(world: World, t: Txn, effect: Effect) {
    && effect.Ends? && effect.outcome == Answer(world.setting, world.catalog, t.op)
    && HeldBy(world.setting, world.catalog, t.op)
    && if Refused(world.catalog, t.op) then effect.db == world.db
       else t.pc.Committing? && effect.db == Sees(world, t)
  }

  /** It is refused, and something the operation sends cannot be held. */
  ghost predicate Stops(world: World, t: Txn, effect: Effect) {
    effect.Fails? && !HeldBy(world.setting, world.catalog, t.op)
  }

  lemma NotHeld(world: World, t: Txn)
    requires t.op.Replace? && DatasetRead(world, t) && MayReplace(t) && !ContentsHold(world.setting, t.op.r)
    ensures !HeldBy(world.setting, world.catalog, t.op)
  {
  }

  // What has been sent after the next statement.

  lemma EmptyPassed(setting: Setting, t: Txn, t': Txn)
    requires t.op.Replace? && Passed(setting, t) && t.pc.Emptying? && t'.op == t.op && t'.pc.Clearing?
    ensures Passed(setting, t')
  {
  }

  lemma InsertPassed(setting: Setting, t: Txn, t': Txn)
    requires t.op.Replace? && Passed(setting, t) && t.pc.Inserting? && CodeHolds(t.op.r.dataset)
    requires t'.op == t.op && t'.pc == Dimensions(0)
    ensures Passed(setting, t')
  {
  }

  lemma DimensionPassed(setting: Setting, t: Txn, t': Txn, i: nat)
    requires t.op.Replace? && Passed(setting, t) && t.pc == Dimensions(i) && i < |t.op.r.dimensions|
    requires CodeHolds(t.op.r.dimensions[i].code)
    requires t'.op == t.op && t'.existed == t.existed && t'.pc == CategoriesOf(i)
    ensures Passed(setting, t')
  {
  }

  lemma CategoriesPassed(setting: Setting, t: Txn, t': Txn, i: nat)
    requires t.op.Replace? && Passed(setting, t) && t.pc == CategoriesOf(i) && i < |t.op.r.dimensions|
    requires CategoriesHold(t.op.r.dimensions[i])
    requires t'.op == t.op && t'.existed == t.existed && t'.pc == Dimensions(i + 1)
    ensures Passed(setting, t')
  {
    var r := t.op.r;
    forall j | 0 <= j < i + 1 && j < |r.dimensions|
      ensures CodeHolds(r.dimensions[j].code) && CategoriesHold(r.dimensions[j])
    {
      assert DimensionsHold(r, i);
    }
  }

  lemma CellsPassed(setting: Setting, t: Txn, t': Txn)
    requires t.op.Replace? && Passed(setting, t) && t.pc == Dimensions(|t.op.r.dimensions|) && CellsHold(t.op.r.cells)
    requires t'.op == t.op && t'.existed == t.existed && t'.pc.Updating?
    ensures Passed(setting, t')
  {
  }

  lemma UpdatePassed(setting: Setting, t: Txn, t': Txn)
    requires t.op.Replace? && Passed(setting, t) && t.pc.Updating? && t.op.r.sourceStamp in setting.jsonb
    requires t'.op == t.op && t'.existed == t.existed && t'.pc.Committing?
    ensures Passed(setting, t')
  {
  }

  lemma ClearingOk(world: World, t: Txn, before: seq<Dimension>)
    requires t.op.Replace? && Passed(world.setting, t) && t.pc.Clearing? && t.existed && Midway(world, t, before, map[])
    ensures Continues(world, DeleteDimensions(world, t), t)
  {
    var t' := DeleteDimensionsOk(world, t, before);
    MidwayOnward(world, t, t', [], map[]);
  }

  lemma DimensionsOk(world: World, t: Txn, i: nat)
    requires t.op.Replace? && Passed(world.setting, t) && t.pc == Dimensions(i) && i < |t.op.r.dimensions|
    requires DimensionFits(t.op.r, i) && CodeHolds(t.op.r.dimensions[i].code)
    requires Midway(world, t, t.op.r.dimensions[..i], map[])
    ensures Continues(world, InsertDimension(world, t, i), t)
  {
    var t' := InsertDimensionOk(world, t, i);
    DimensionPassed(world.setting, t, t', i);
    MidwayOnward(world, t, t', DimensionsSoFar(world, t'), map[]);
  }

  lemma CategoriesOk(world: World, t: Txn, i: nat, before: seq<Dimension>)
    requires t.op.Replace? && Passed(world.setting, t) && t.pc == CategoriesOf(i) && i < |t.op.r.dimensions|
    requires DimensionFits(t.op.r, i) && CategoriesHold(t.op.r.dimensions[i]) && Midway(world, t, before, map[])
    requires before == t.op.r.dimensions[..i] + [t.op.r.dimensions[i].(categories := [])]
    ensures Continues(world, CopyCategories(world, t, i), t)
  {
    var t' := CopyCategoriesOk(world, t, i);
    CategoriesPassed(world.setting, t, t', i);
    MidwayOnward(world, t, t', t.op.r.dimensions[..i + 1], map[]);
  }

  lemma CellsOk(world: World, t: Txn)
    requires t.op.Replace? && Passed(world.setting, t) && t.pc == Dimensions(|t.op.r.dimensions|)
    requires CellsAllowed(map[], t.op.r.cells) && CellsHold(t.op.r.cells) && Midway(world, t, t.op.r.dimensions, map[])
    ensures Continues(world, CopyCells(world, t), t)
  {
    var t' := CopyCellsOk(world, t);
    CellsPassed(world.setting, t, t');
    MidwayOnward(world, t, t', t.op.r.dimensions, CellMap(t.op.r.cells));
  }

  lemma UpdatingOk(world: World, t: Txn)
    requires ProvidersFaithful(world) && t.op.Replace? && Passed(world.setting, t) && t.pc.Updating?
    requires Midway(world, t, t.op.r.dimensions, CellsSoFar(t)) && t.op.r.sourceStamp in world.setting.jsonb
    requires CountsAllowed(t.op.r.cellCount, t.op.r.valuedCount)
    ensures Continues(world, UpdateDataset(world, t), t)
  {
    var t' := UpdateDatasetOk(world, t, CellsSoFar(t));
    UpdatePassed(world.setting, t, t');
    MidwayOnward(world, t, t', t.op.r.dimensions, CellsSoFar(t));
  }

  lemma InsertingOk(world: World, t: Txn)
    requires ProvidersFaithful(world) && FaithfulAt(world, |world.datasetIds|)
    requires t.op.Replace? && Passed(world.setting, t) && t.pc.Inserting?
    requires Confined(world, t) && NothingFound(world, t)
    requires CodeHolds(t.op.r.dataset) && CodeAllowed(t.op.r.dataset) && t.op.r.sourceStamp in world.setting.jsonb
    requires CountsAllowed(t.op.r.cellCount, t.op.r.valuedCount)
    requires Find(Sees(world, t).datasets, t.providerId, t.op.r.dataset.key) == None
    ensures Continues(world, InsertDataset(world, t), t)
  {
    var t' := InsertDatasetOk(world, t);
    InsertPassed(world.setting, t, t');
    var after := world.(datasetIds := world.datasetIds + [IdentityOf(t.op)]);
    MidwayOnward(after, t, t', [], map[]);
    assert world.(providerIds := world.providerIds, datasetIds := after.datasetIds) == after;
  }

  lemma EmptyingOk(world: World, t: Txn)
    requires Faithful(world) && Own(world, t) && t.op.Replace? && t.pc.Emptying? && t.op.r.replace
    ensures Continues(world, DeleteObservations(world, t), t)
  {
    FaithfulHere(world, t.datasetId);
    var t' := DeleteObservationsOk(world, t);
    EmptyPassed(world.setting, t, t');
    MidwayOnward(world, t, t', Current(world, t').r.dimensions, map[]);
  }

  lemma OwnMidway(world: World, t: Txn)
    requires Own(world, t) && t.op.Replace?
    requires t.pc.Clearing? || t.pc.Dimensions? || t.pc.CategoriesOf? || t.pc.Updating? || t.pc.Committing?
    ensures CounterOk(world, t) && Passed(world.setting, t)
    ensures Midway(world, t, DimensionsSoFar(world, t), CellsSoFar(t))
  {
  }

  /** The three ways a statement can go. */
  ghost predicate Proceeds(world: World, t: Txn, effect: Effect) {
    Continues(world, effect, t) || Ended(world, t, effect) || Stops(world, t, effect)
  }

  lemma DimensionStatementOk(world: World, t: Txn, i: nat)
    requires Own(world, t) && t.op.Replace? && t.pc == Dimensions(i) && i < |t.op.r.dimensions|
    requires Submitted(world.setting, t.op)
    ensures Proceeds(world, t, InsertDimension(world, t, i))
  {
    OwnMidway(world, t);
    if CodeHolds(t.op.r.dimensions[i].code) {
      EveryDimensionFits(t.op.r, world.setting.normalize, i);
      DimensionsOk(world, t, i);
    } else {
      NotHeld(world, t);
    }
  }

  lemma CellsStatementOk(world: World, t: Txn)
    requires Own(world, t) && t.op.Replace? && t.pc.Dimensions? && t.pc.i >= |t.op.r.dimensions|
    requires Submitted(world.setting, t.op)
    ensures Proceeds(world, t, CopyCells(world, t))
  {
    OwnMidway(world, t);
    assert DimensionsSoFar(world, t) == t.op.r.dimensions;
    if CellsHold(t.op.r.cells) {
      CellsFit(t.op.r);
      CellsOk(world, t);
    } else {
      NotHeld(world, t);
    }
  }

  lemma DimensionsStatementOk(world: World, t: Txn, i: nat)
    requires Own(world, t) && t.op.Replace? && t.pc == Dimensions(i) && Submitted(world.setting, t.op)
    ensures Proceeds(world, t, ReplaceStatement(world, t))
  {
    if i < |t.op.r.dimensions| {
      DimensionStatementOk(world, t, i);
    } else {
      CellsStatementOk(world, t);
    }
  }

  lemma CategoriesStatementOk(world: World, t: Txn, i: nat)
    requires Own(world, t) && t.op.Replace? && t.pc == CategoriesOf(i) && Submitted(world.setting, t.op)
    ensures Proceeds(world, t, ReplaceStatement(world, t))
  {
    OwnMidway(world, t);
    if CategoriesHold(t.op.r.dimensions[i]) {
      EveryDimensionFits(t.op.r, world.setting.normalize, i);
      CategoriesOk(world, t, i, DimensionsSoFar(world, t));
    } else {
      NotHeld(world, t);
    }
  }

  lemma UpdatingStatementOk(world: World, t: Txn)
    requires Faithful(world) && Own(world, t) && t.op.Replace? && t.pc.Updating? && Submitted(world.setting, t.op)
    ensures Proceeds(world, t, ReplaceStatement(world, t))
  {
    OwnMidway(world, t);
    if t.op.r.sourceStamp in world.setting.jsonb {
      UpdatingOk(world, t);
    } else {
      NotHeld(world, t);
    }
  }

  lemma ClearingStatementOk(world: World, t: Txn)
    requires Own(world, t) && t.op.Replace? && t.pc.Clearing?
    ensures Proceeds(world, t, ReplaceStatement(world, t))
  {
    OwnMidway(world, t);
    ClearingOk(world, t, DimensionsSoFar(world, t));
  }

  /** A dataset that is there and may not be replaced. */
  lemma ExistingRefused(world: World, t: Txn)
    requires Own(world, t) && t.op.Replace? && t.pc.Emptying? && !t.op.r.replace
    ensures Ended(world, t, DeleteObservations(world, t))
  {
  }

  lemma EmptyingStatementOk(world: World, t: Txn)
    requires Faithful(world) && Own(world, t) && t.op.Replace? && t.pc.Emptying?
    ensures Proceeds(world, t, ReplaceStatement(world, t))
  {
    if t.op.r.replace {
      EmptyingOk(world, t);
    } else {
      ExistingRefused(world, t);
    }
  }

  lemma InsertingHeldOk(world: World, t: Txn)
    requires Faithful(world) && t.op.Replace? && t.pc.Inserting? && Submitted(world.setting, t.op)
    requires Passed(world.setting, t) && Confined(world, t) && NothingFound(world, t)
    requires CodeHolds(t.op.r.dataset) && t.op.r.sourceStamp in world.setting.jsonb
    ensures Continues(world, InsertDataset(world, t), t)
  {
    FindsCurrent(world, t);
    FaithfulHere(world, |world.datasetIds|);
    CodedIsAllowed(t.op.r.dataset, world.setting.normalize);
    InsertingOk(world, t);
  }

  lemma InsertingStops(world: World, t: Txn)
    requires t.op.Replace? && NothingFound(world, t)
    requires !CodeHolds(t.op.r.dataset) || t.op.r.sourceStamp !in world.setting.jsonb
    ensures Stops(world, t, InsertDataset(world, t))
  {
  }

  lemma InsertingStatementOk(world: World, t: Txn)
    requires Faithful(world) && Own(world, t) && t.op.Replace? && t.pc.Inserting? && Submitted(world.setting, t.op)
    ensures Proceeds(world, t, ReplaceStatement(world, t))
  {
    if CodeHolds(t.op.r.dataset) && t.op.r.sourceStamp in world.setting.jsonb {
      InsertingHeldOk(world, t);
    } else {
      InsertingStops(world, t);
    }
  }

  lemma ProviderStatementOk(world: World, t: Txn)
    requires Faithful(world) && Own(world, t) && t.op.Replace? && Submitted(world.setting, t.op)
    requires t.pc.Locked? || t.pc.ProviderInserted? || t.pc.ProviderSelected?
    ensures Proceeds(world, t, ReplaceStatement(world, t))
  {
    match t.pc
    case Locked =>
      if CodeHolds(t.op.r.provider) {
        CodedIsAllowed(t.op.r.provider, world.setting.normalize);
        InsertProviderOk(world, t);
      }
    case ProviderInserted => SelectProviderOk(world, t);
    case ProviderSelected =>
      if TextHolds(t.op.r.dataset.key) {
        SelectDatasetOk(world, t);
      }
  }

  lemma CommittingOk(world: World, t: Txn)
    requires Own(world, t) && t.op.Replace? && t.pc.Committing?
    ensures Proceeds(world, t, ReplaceStatement(world, t))
  {
    OwnMidway(world, t);
  }

  /** The statements after the dataset lookup's result is dealt with. */
  lemma WritingStatementOk(world: World, t: Txn)
    requires Faithful(world) && Own(world, t) && t.op.Replace? && Submitted(world.setting, t.op)
    requires t.pc.Clearing? || KnowsDataset(t)
    ensures Proceeds(world, t, ReplaceStatement(world, t))
  {
    match t.pc
    case Clearing => ClearingStatementOk(world, t);
    case Dimensions(i) => DimensionsStatementOk(world, t, i);
    case CategoriesOf(i) => CategoriesStatementOk(world, t, i);
    case Updating => UpdatingStatementOk(world, t);
    case Committing(_) => CommittingOk(world, t);
  }

  lemma ReplaceStatementOk(world: World, t: Txn)
    requires Faithful(world) && Own(world, t) && t.op.Replace?
    requires !t.pc.Begun? && !t.pc.Done? && Submitted(world.setting, t.op)
    ensures Proceeds(world, t, ReplaceStatement(world, t))
  {
    if t.pc.Inserting? {
      InsertingStatementOk(world, t);
    } else if t.pc.Emptying? {
      EmptyingStatementOk(world, t);
    } else if t.pc.Clearing? || KnowsDataset(t) {
      WritingStatementOk(world, t);
    } else {
      ProviderStatementOk(world, t);
    }
  }

  lemma DeleteStatementOk(world: World, t: Txn)
    requires Faithful(world) && Own(world, t) && t.op.Delete? && !t.pc.Begun? && !t.pc.Done?
    ensures Proceeds(world, t, DeleteStatement(world, t))
  {
    if Sendable(t.op) && !t.pc.Committing? {
      FindErased(world, t);
      if t.pc.Locked? {
        var t' := EraseObservationsOk(world, t);
        Onward(world, t, t');
      } else {
        var t' := EraseDatasetOk(world, t);
        Onward(world, t, t');
      }
    }
  }

  /** A statement of a running transaction is refused only for a text that is not UTF-8 or has a byte 0, or a stamp that
      jsonb does not hold, in what the operation sends; otherwise the transaction goes on as it should be, or ends with
      the answer of the serial history. */
  lemma StatementOk(world: World, t: Txn)
    requires Faithful(world) && Own(world, t) && !t.pc.Begun? && !t.pc.Done? && Submitted(world.setting, t.op)
    ensures || Continues(world, Statement(world, t), t)
            || Ended(world, t, Statement(world, t))
            || Stops(world, t, Statement(world, t))
  {
    if t.op.Replace? {
      ReplaceStatementOk(world, t);
    } else {
      DeleteStatementOk(world, t);
    }
  }
}
