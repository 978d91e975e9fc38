/** What the serial history means for a reader: whose rows are in the tables, and what never changes. */
module History {
  import opened Basics
  import opened Model
  import opened Naming
  import opened Remap
  import opened Payload
  import opened PayloadLaws
  import opened Database
  import opened Protocol
  import opened Invariant
  import opened Safety

  // Laws of the serial history.

  lemma ReplaySnoc(log: seq<Record>, last: Record)
    ensures Replay(log + [last]) == Perform(Replay(log), last.op, last.id)
  {
    assert (log + [last])[..|log|] == log;
  }

  predicate Submits(record: Record, i: Identity) {
    record.op.Replace? && IdentityOf(record.op) == i && record.outcome.Stored?
  }

  /** Record k is the last one that changed identity i. */
  predicate LastWrite(log: seq<Record>, i: Identity, k: int) {
    && 0 <= k < |log| && Submits(log[k], i)
    && forall j :: k < j < |log| && IdentityOf(log[j].op) == i ==> log[j].outcome == DatasetExists
  }

  lemma LastWriteKept(log: seq<Record>, i: Identity, k: int)
    requires log != [] && LastWrite(log[..|log| - 1], i, k)
    requires IdentityOf(log[|log| - 1].op) == i ==> log[|log| - 1].outcome == DatasetExists
    ensures LastWrite(log, i, k)
  {
    var before := log[..|log| - 1];
    forall j | k < j < |log| && IdentityOf(log[j].op) == i ensures log[j].outcome == DatasetExists {
      assert j < |log| - 1 ==> log[j] == before[j];
    }
  }

  /** A dataset holds the last replacement that was answered with success since its creation. */
  lemma {:induction false} HeldIsLastWrite(setting: Setting, log: seq<Record>, i: Identity) returns (k: int)
    requires Correct(setting, log) && i in Replay(log).datasets
    ensures LastWrite(log, i, k) && Replay(log).datasets[i].r == log[k].op.r
  {
    var n := |log| - 1;
    var last, before := log[n], log[..n];
    CorrectPrefix(setting, log, n);
    assert last.outcome == Answer(setting, Replay(before), last.op);
    if IdentityOf(last.op) == i && !Refused(Replay(before), last.op) {
      k := n;
    } else {
      k := HeldIsLastWrite(setting, before, i);
      LastWriteKept(log, i, k);
    }
  }

  lemma CorrectPrefix(setting: Setting, log: seq<Record>, n: nat)
    requires Correct(setting, log) && n <= |log|
    ensures Correct(setting, log[..n])
  {
    forall k | 0 <= k < n ensures log[..n][k].outcome == Answer(setting, Replay(log[..n][..k]), log[..n][k].op) {
      assert log[..n][..k] == log[..k];
    }
  }

  /** A provider keeps the spelling it had at its first commit. */
  lemma {:induction false} ProviderFixed(log: seq<Record>, more: seq<Record>, p: Key)
    requires p in Replay(log).providers
    ensures p in Replay(log + more).providers && Replay(log + more).providers[p] == Replay(log).providers[p]
  {
    if more == [] {
      assert log + more == log;
    } else {
      var n := |more| - 1;
      ProviderFixed(log, more[..n], p);
      assert log + more == log + more[..n] + [more[n]];
      ReplaySnoc(log + more[..n], more[n]);
    }
  }

  predicate Deletes(record: Record, i: Identity) {
    record.op.Delete? && IdentityOf(record.op) == i
  }

  /** A dataset keeps its id and the spelling it was created with until it is deleted. */
  lemma {:induction false} DatasetFixed(log: seq<Record>, more: seq<Record>, i: Identity)
    requires i in Replay(log).datasets && forall k :: 0 <= k < |more| ==> !Deletes(more[k], i)
    ensures i in Replay(log + more).datasets
    ensures Replay(log + more).datasets[i].spelling == Replay(log).datasets[i].spelling
    ensures Replay(log + more).datasets[i].id == Replay(log).datasets[i].id
  {
    if more == [] {
      assert log + more == log;
    } else {
      var n := |more| - 1;
      DatasetFixed(log, more[..n], i);
      assert log + more == log + more[..n] + [more[n]];
      ReplaySnoc(log + more[..n], more[n]);
    }
  }

  /** The history only grows. */
  lemma {:induction false} LogGrows(s: State, events: seq<Event>)
    requires Run(s, events).Some?
    ensures s.log <= Run(s, events).value.log
  {
    if events != [] {
      LogGrows(s, events[..|events| - 1]);
    }
  }

  // The tables of a reachable state.

  /** All that is stored under dataset id d, in any table, is replacement r, with the counts the schema promises. */
  ghost predicate IsExactly(setting: Setting, db: Db, d: nat, r: Replacement) {
    && d in db.datasets && db.datasets[d].key == r.dataset.key
    && db.datasets[d].stamp == Respelled(setting.jsonb, r.sourceStamp)
    && db.datasets[d].cellCount == r.cellCount == Count(AxesOf(r.dimensions))
    && db.datasets[d].valuedCount == r.valuedCount
    && RowsOf(db.dimensions, d) == ByPosition(r.dimensions)
    && CellsAscend(r.cells) && RowsOf(db.observations, d) == CellMap(r.cells)
    && forall k :: k in RowsOf(db.observations, d) ==> 0 <= k < db.datasets[d].cellCount
  }

  /** No row of any table is an orphan. */
  ghost predicate HasNoRows(db: Db, d: nat) {
    d !in db.datasets && RowsOf(db.dimensions, d) == map[] && RowsOf(db.observations, d) == map[]
  }

  /** In every state that any interleaving can reach, each dataset id either has no row in any table or has exactly the
      rows of one replacement: the last one that was answered with success for its identity. */
  lemma OneReplacement(setting: Setting, events: seq<Event>, s: State, d: nat) returns (k: int)
    requires Run(Initial(setting), events) == Some(s)
    ensures d !in s.world.db.datasets ==> HasNoRows(s.world.db, d)
    ensures d in s.world.db.datasets ==>
      && 0 <= k < |s.log| && s.log[k].op.Replace? && LastWrite(s.log, IdentityOf(s.log[k].op), k)
      && IsExactly(setting, s.world.db, d, s.log[k].op.r)
  {
    InitialOk(setting);
    RunOk(Initial(setting), events);
    SettingStays(Initial(setting), events);
    assert FaithfulAt(s.world, d);
    k := 0;
    if Live(s.world, d) {
      var i := s.world.datasetIds[d];
      assert EntryOk(s.world, i) && EntryHeld(s.world, i);
      k := HeldIsLastWrite(setting, s.log, i);
      CellsHeld(s.world.catalog.datasets[i].r);
    }
  }

  lemma CellsHeld(r: Replacement)
    requires WellFormedReplacement(r, SCHEMA_MAX_CELLS)
    ensures forall k :: k in CellMap(r.cells) ==> 0 <= k < r.cellCount
  {
    forall k | k in CellMap(r.cells) ensures 0 <= k < r.cellCount {
      CellMapMember(r.cells, k);
    }
  }

  /** The rows of an identity: the provider row by its key, the dataset row by provider id and key. */
  ghost predicate RowOfIdentity(db: Db, i: Identity, d: nat) {
    && i.provider in db.providers && d in db.datasets
    && db.datasets[d].providerId == db.providers[i.provider].id && db.datasets[d].key == i.dataset
  }

  /** Serializability. What is committed is what the finished operations do one at a time in the order they ended, every
      one of them was answered as that order says, and an identity has a row, one row, exactly when it exists in that
      order. */
  lemma Serializable(setting: Setting, events: seq<Event>, s: State)
    requires Run(Initial(setting), events) == Some(s)
    ensures Correct(setting, s.log)
    ensures s.world.db.providers.Keys == Replay(s.log).providers.Keys
    ensures forall p :: p in s.world.db.providers ==> s.world.db.providers[p].spelling == Replay(s.log).providers[p]
    ensures forall i, d ::
      RowOfIdentity(s.world.db, i, d) <==> i in Replay(s.log).datasets && Replay(s.log).datasets[i].id == d
    ensures forall i, d :: RowOfIdentity(s.world.db, i, d) ==>
      && s.world.db.datasets[d].spelling == Replay(s.log).datasets[i].spelling
      && IsExactly(setting, s.world.db, d, Replay(s.log).datasets[i].r)
  {
    InitialOk(setting);
    RunOk(Initial(setting), events);
    SettingStays(Initial(setting), events);
    forall p | p in s.world.db.providers ensures s.world.db.providers[p].spelling == Replay(s.log).providers[p] {
      assert ProviderFaithful(s.world, p, s.world.db.providers[p]);
    }
    forall i, d
      ensures RowOfIdentity(s.world.db, i, d) <==> i in Replay(s.log).datasets && Replay(s.log).datasets[i].id == d
    {
      IdentityHasRow(s.world, i, d);
    }
    forall i, d | RowOfIdentity(s.world.db, i, d)
      ensures s.world.db.datasets[d].spelling == Replay(s.log).datasets[i].spelling
      ensures IsExactly(setting, s.world.db, d, Replay(s.log).datasets[i].r)
    {
      IdentityHasRow(s.world, i, d);
      HeldExactly(s.world, i);
    }
  }

  lemma IdentityHasRow(world: World, i: Identity, d: nat)
    requires Faithful(world)
    ensures RowOfIdentity(world.db, i, d) <==> i in world.catalog.datasets && world.catalog.datasets[i].id == d
  {
    assert FaithfulAt(world, d) && EntryOk(world, i);
    if RowOfIdentity(world.db, i, d) {
      assert ProviderFaithful(world, i.provider, world.db.providers[i.provider]);
      RowIsCurrent(world, i, world.db.providers[i.provider].id, d);
    }
  }

  lemma HeldExactly(world: World, i: Identity)
    requires Faithful(world) && i in world.catalog.datasets
    ensures IsExactly(world.setting, world.db, world.catalog.datasets[i].id, world.catalog.datasets[i].r)
    ensures world.db.datasets[world.catalog.datasets[i].id].spelling == world.catalog.datasets[i].spelling
  {
    assert EntryOk(world, i) && EntryHeld(world, i) && FaithfulAt(world, world.catalog.datasets[i].id);
    CellsHeld(world.catalog.datasets[i].r);
  }

  lemma ProviderSpellingFixed(world: World, world': World, p: Key)
    requires ProvidersFaithful(world) && ProvidersFaithful(world') && p in world.db.providers
    requires p in world'.catalog.providers && world'.catalog.providers[p] == world.catalog.providers[p]
    ensures p in world'.db.providers && world'.db.providers[p].spelling == world.db.providers[p].spelling
  {
    assert ProviderFaithful(world, p, world.db.providers[p]);
    assert ProviderFaithful(world', p, world'.db.providers[p]);
  }

  lemma ProviderUnchanged(before: seq<Record>, after: seq<Record>, p: Key)
    requires before <= after && p in Replay(before).providers
    ensures p in Replay(after).providers && Replay(after).providers[p] == Replay(before).providers[p]
  {
    assert after == before + after[|before|..];
    ProviderFixed(before, after[|before|..], p);
  }

  ghost predicate Undeleted(before: seq<Record>, after: seq<Record>, i: Identity) {
    forall k :: |before| <= k < |after| ==> !Deletes(after[k], i)
  }

  lemma DatasetUnchanged(before: seq<Record>, after: seq<Record>, i: Identity)
    requires before <= after && i in Replay(before).datasets && Undeleted(before, after, i)
    ensures i in Replay(after).datasets
    ensures Replay(after).datasets[i].spelling == Replay(before).datasets[i].spelling
    ensures Replay(after).datasets[i].id == Replay(before).datasets[i].id
  {
    assert after == before + after[|before|..];
    DatasetFixed(before, after[|before|..], i);
  }

  lemma DatasetSpellingFixed(world: World, world': World, i: Identity, d: nat)
    requires Faithful(world) && Faithful(world') && RowOfIdentity(world.db, i, d)
    requires i in world.catalog.datasets && i in world'.catalog.datasets
    requires world'.catalog.datasets[i].id == world.catalog.datasets[i].id
    requires world'.catalog.datasets[i].spelling == world.catalog.datasets[i].spelling
    ensures RowOfIdentity(world'.db, i, d) && world'.db.datasets[d].spelling == world.db.datasets[d].spelling
  {
    IdentityHasRow(world, i, d);
    IdentityHasRow(world', i, d);
    HeldExactly(world, i);
    HeldExactly(world', i);
  }

  /** Spellings in the tables: a provider's never changes, a dataset's not until somebody deletes it. */
  lemma SpellingsFixed(setting: Setting, events: seq<Event>, more: seq<Event>, s: State, s': State, i: Identity, d: nat)
    requires Run(Initial(setting), events) == Some(s) && Run(s, more) == Some(s') && i.provider in s.world.db.providers
    ensures i.provider in s'.world.db.providers
    ensures s'.world.db.providers[i.provider].spelling == s.world.db.providers[i.provider].spelling
    ensures s.log <= s'.log
    ensures RowOfIdentity(s.world.db, i, d) && Undeleted(s.log, s'.log, i) ==>
      RowOfIdentity(s'.world.db, i, d) && s'.world.db.datasets[d].spelling == s.world.db.datasets[d].spelling
  {
    InitialOk(setting);
    RunOk(Initial(setting), events);
    RunOk(s, more);
    LogGrows(s, more);
    ProviderUnchanged(s.log, s'.log, i.provider);
    ProviderSpellingFixed(s.world, s'.world, i.provider);
    if RowOfIdentity(s.world.db, i, d) && Undeleted(s.log, s'.log, i) {
      IdentityHasRow(s.world, i, d);
      DatasetUnchanged(s.log, s'.log, i);
      DatasetSpellingFixed(s.world, s'.world, i, d);
    }
  }
}
