/** Waiting: a writer waits for an advisory lock or for a new provider and for nothing else, somebody can always go on,
    and without new arrivals every run ends. */
module Liveness {
  import opened Basics
  import opened Model
  import opened Database
  import opened Protocol
  import opened Invariant
  import opened Statements
  import opened Commit
  import opened Safety

  /** Another running transaction has the lock. */
  ghost predicate WaitsForLock(s: State, tid: nat)
    requires tid < |s.txns|
  {
    var k := s.world.setting.lockOf(IdentityOf(s.txns[tid].op));
    s.txns[tid].pc.Begun? && k in s.locks && s.locks[k] < |s.txns| && HoldsLock(s.txns[s.locks[k]])
  }

  ghost predicate HasNewProvider(s: State, u: nat, p: Key) {
    u < |s.txns| && p in s.txns[u].w.providers
  }

  /** Another running transaction has inserted the same provider and not ended yet. */
  ghost predicate WaitsForProvider(s: State, tid: nat)
    requires tid < |s.txns|
  {
    && s.txns[tid].op.Replace? && s.txns[tid].pc.Locked?
    && exists u: nat :: u != tid && HasNewProvider(s, u, s.txns[tid].op.r.provider.key)
  }

  /** Only the provider insert writes a provider. */
  lemma StatementProviders(world: World, t: Txn)
    requires t.op.Replace? && ReplaceStatement(world, t).Runs? && !t.pc.Locked?
    ensures ReplaceStatement(world, t).txn.w.providers == t.w.providers
  {
    match t.pc
    case ProviderInserted =>
    case ProviderSelected =>
    case Inserting =>
    case Emptying =>
    case Clearing =>
    case Dimensions(i) =>
    case CategoriesOf(i) =>
    case Updating =>
  }

  lemma DeleteStatementProviders(world: World, t: Txn)
    requires DeleteStatement(world, t).Runs?
    ensures DeleteStatement(world, t).txn.w.providers == t.w.providers
  {
  }

  lemma InsertsApart(world: World, t: Txn, v: Txn)
    requires Confined(world, t) && Confined(world, v) && SameIdentityInserted(t.w, v.w)
    ensures IdentityOf(t.op) == IdentityOf(v.op)
  {
    var d, e :| d in t.w.datasets && e in v.w.datasets && t.w.datasets[d].Some? && v.w.datasets[e].Some?
      && t.w.datasets[d].value.providerId == v.w.datasets[e].value.providerId
      && t.w.datasets[d].value.key == v.w.datasets[e].value.key;
    assert WrittenRowOk(world, IdentityOf(t.op), t.w.datasets[d]);
    assert WrittenRowOk(world, IdentityOf(v.op), v.w.datasets[e]);
  }

  /** Only writers of one identity meet in a row or in an identity constraint. */
  lemma RowsApart(world: World, world': World, t: Txn, v: Txn)
    requires Confined(world', t) && Confined(world, v)
    requires world.providerIds <= world'.providerIds && world.datasetIds <= world'.datasetIds
    ensures Clash(t.w, v.w) ==> ShareProvider(t.w, v.w) || IdentityOf(t.op) == IdentityOf(v.op)
  {
    ConfinedStays(world, world', v);
    if SameIdentityInserted(t.w, v.w) {
      InsertsApart(world', t, v);
    }
  }

  lemma ClashIsProvider(s: State, tid: nat, u: nat)
    requires Inv(s) && tid < |s.txns| && HoldsLock(s.txns[tid]) && u < |s.txns| && u != tid
    requires Statement(s.world, s.txns[tid]).Runs? && Clash(Statement(s.world, s.txns[tid]).txn.w, s.txns[u].w)
    ensures ShareProvider(Statement(s.world, s.txns[tid]).txn.w, s.txns[u].w)
    ensures Statement(s.world, s.txns[tid]).txn.op == s.txns[tid].op
    ensures Confined(s.world.(providerIds := Statement(s.world, s.txns[tid]).providerIds,
                              datasetIds := Statement(s.world, s.txns[tid]).datasetIds),
                     Statement(s.world, s.txns[tid]).txn)
  {
    var t, v, effect := s.txns[tid], s.txns[u], Statement(s.world, s.txns[tid]);
    assert Own(s.world, t) && Own(s.world, v);
    StatementOk(s.world, t);
    if HoldsLock(v) {
      DifferentIdentities(s, tid, u);
      RowsApart(s.world, s.world.(providerIds := effect.providerIds, datasetIds := effect.datasetIds), effect.txn, v);
    } else {
      assert v.w == NO_WRITES;
    }
  }

  /** Row locks and identity constraints never make anybody wait: the advisory lock has done that already. */
  lemma WaitsOnlyForProvider(s: State, tid: nat)
    requires Inv(s) && tid < |s.txns| && HoldsLock(s.txns[tid])
    requires Statement(s.world, s.txns[tid]).Runs? && Waits(s, tid, Statement(s.world, s.txns[tid]).txn.w)
    ensures WaitsForProvider(s, tid)
  {
    var t, effect := s.txns[tid], Statement(s.world, s.txns[tid]);
    var u :| 0 <= u < |s.txns| && u != tid && Clash(effect.txn.w, s.txns[u].w);
    ClashIsProvider(s, tid, u);
    assert !ShareProvider(t.w, s.txns[u].w);
    var p :| p in effect.txn.w.providers && p in s.txns[u].w.providers;
    if t.op.Delete? {
      DeleteStatementProviders(s.world, t);
      assert false;
    } else if !t.pc.Locked? {
      StatementProviders(s.world, t);
      assert false;
    } else {
      assert HasNewProvider(s, u, t.op.r.provider.key);
    }
  }

  /** A transaction that cannot take its next step waits for a lock or for a provider. */
  lemma BlockedOnlyTwice(s: State, tid: nat)
    requires Inv(s) && tid < |s.txns| && !s.txns[tid].pc.Done? && !Advance(s, tid).Goes?
    ensures Advance(s, tid).Blocked?
    ensures WaitsForLock(s, tid) || WaitsForProvider(s, tid)
  {
    if HoldsLock(s.txns[tid]) {
      WaitsOnlyForProvider(s, tid);
    }
  }

  /** Whoever has a new provider in hand is past both waits. */
  lemma ProviderHolderGoes(s: State, u: nat, p: Key)
    requires Inv(s) && HasNewProvider(s, u, p)
    ensures Advance(s, u).Goes?
  {
    assert Own(s.world, s.txns[u]);
    if !Advance(s, u).Goes? {
      BlockedOnlyTwice(s, u);
    }
  }

  lemma LockHolderOrProviderHolder(s: State, tid: nat) returns (goes: nat)
    requires Inv(s) && tid < |s.txns| && HoldsLock(s.txns[tid])
    ensures goes < |s.txns| && Advance(s, goes).Goes?
  {
    goes := tid;
    if !Advance(s, tid).Goes? {
      BlockedOnlyTwice(s, tid);
      var p := s.txns[tid].op.r.provider.key;
      var u: nat :| u != tid && HasNewProvider(s, u, p);
      ProviderHolderGoes(s, u, p);
      goes := u;
    }
  }

  /** No deadlock: while anything is in flight, some transaction can take its next step, whatever locks collide. */
  lemma NoDeadlock(s: State, tid: nat) returns (goes: nat)
    requires Inv(s) && tid < |s.txns| && !s.txns[tid].pc.Done?
    ensures goes < |s.txns| && Advance(s, goes).Goes?
  {
    if Advance(s, tid).Goes? {
      goes := tid;
    } else {
      BlockedOnlyTwice(s, tid);
      var holder := if WaitsForLock(s, tid) then s.locks[s.world.setting.lockOf(IdentityOf(s.txns[tid].op))] else tid;
      goes := LockHolderOrProviderHolder(s, holder);
    }
  }

  // Termination.

  function Left(t: Txn, i: nat): nat {
    if t.op.Replace? && i <= |t.op.r.dimensions| then 2 * (|t.op.r.dimensions| - i) else 0
  }

  /** How many more steps a transaction can take. */
  function Rank(t: Txn): nat {
    match t.pc
    case Begun => Left(t, 0) + 9
    case Locked => Left(t, 0) + 8
    case ProviderInserted => Left(t, 0) + 7
    case ProviderSelected => Left(t, 0) + 6
    case Emptying => Left(t, 0) + 5
    case Clearing => Left(t, 0) + 4
    case Inserting => Left(t, 0) + 4
    case Dimensions(i) => Left(t, i) + 3
    case CategoriesOf(i) => Left(t, i) + 2
    case Updating => 2
    case Erasing => 2
    case Committing(_) => 1
    case Done(_) => 0
  }

  function Total(txns: seq<Txn>): nat {
    if txns == [] then 0 else Total(txns[..|txns| - 1]) + Rank(txns[|txns| - 1])
  }

  lemma {:induction false} TotalUpdate(txns: seq<Txn>, tid: nat, t: Txn)
    requires tid < |txns|
    ensures Total(txns[tid := t]) == Total(txns) - Rank(txns[tid]) + Rank(t)
  {
    var n := |txns| - 1;
    if tid == n {
      assert txns[tid := t][..n] == txns[..n];
    } else {
      TotalUpdate(txns[..n], tid, t);
      assert txns[tid := t][..n] == txns[..n][tid := t];
    }
  }

  lemma DimensionNext(world: World, t: Txn, i: nat)
    requires t.op.Replace? && i < |t.op.r.dimensions|
    ensures InsertDimension(world, t, i).Runs? ==>
      InsertDimension(world, t, i).txn.op == t.op && InsertDimension(world, t, i).txn.pc == CategoriesOf(i)
    ensures CopyCategories(world, t, i).Runs? ==>
      CopyCategories(world, t, i).txn.op == t.op && CopyCategories(world, t, i).txn.pc == Dimensions(i + 1)
  {
  }

  lemma CellsNext(world: World, t: Txn)
    requires t.op.Replace? && CopyCells(world, t).Runs?
    ensures CopyCells(world, t).txn.op == t.op && CopyCells(world, t).txn.pc == Updating
  {
  }

  lemma DimensionDescends(t: Txn, next: Txn, i: nat)
    requires t.op.Replace? && next.op == t.op
    requires || (t.pc == Dimensions(i) && next.pc == if i < |t.op.r.dimensions| then CategoriesOf(i) else Updating)
             || (t.pc == CategoriesOf(i) && i < |t.op.r.dimensions| && next.pc == Dimensions(i + 1))
    ensures Rank(next) < Rank(t)
  {
  }

  lemma WritingDescends(world: World, t: Txn)
    requires t.op.Replace? && (t.pc.Dimensions? || t.pc.CategoriesOf?) && ReplaceStatement(world, t).Runs?
    ensures Rank(ReplaceStatement(world, t).txn) < Rank(t)
  {
    if t.pc.i < |t.op.r.dimensions| {
      DimensionNext(world, t, t.pc.i);
    } else {
      CellsNext(world, t);
    }
    DimensionDescends(t, ReplaceStatement(world, t).txn, t.pc.i);
  }

  lemma ProviderNext(world: World, t: Txn)
    requires t.op.Replace?
    ensures InsertProvider(world, t).Runs? ==>
      InsertProvider(world, t).txn.op == t.op && InsertProvider(world, t).txn.pc == ProviderInserted
    ensures SelectProvider(world, t).Runs? ==>
      SelectProvider(world, t).txn.op == t.op && SelectProvider(world, t).txn.pc == ProviderSelected
  {
  }

  lemma DatasetNext(world: World, t: Txn)
    requires t.op.Replace?
    ensures SelectDataset(world, t).Runs? ==>
      && SelectDataset(world, t).txn.op == t.op
      && (SelectDataset(world, t).txn.pc == Inserting || SelectDataset(world, t).txn.pc == Emptying)
    ensures InsertDataset(world, t).Runs? ==>
      InsertDataset(world, t).txn.op == t.op && InsertDataset(world, t).txn.pc == Dimensions(0)
  {
  }

  lemma UpdateDescends(world: World, t: Txn)
    requires t.op.Replace? && t.pc.Updating? && UpdateDataset(world, t).Runs?
    ensures Rank(UpdateDataset(world, t).txn) < Rank(t)
  {
  }

  lemma ClearedNext(world: World, t: Txn)
    requires t.op.Replace?
    ensures DeleteObservations(world, t).Runs? ==>
      DeleteObservations(world, t).txn.op == t.op && DeleteObservations(world, t).txn.pc == Clearing
    ensures DeleteDimensions(world, t).Runs? ==>
      DeleteDimensions(world, t).txn.op == t.op && DeleteDimensions(world, t).txn.pc == Dimensions(0)
  {
  }

  lemma DatasetDescends(world: World, t: Txn)
    requires t.op.Replace? && (t.pc.ProviderSelected? || t.pc.Inserting? || t.pc.Updating?)
    requires ReplaceStatement(world, t).Runs?
    ensures Rank(ReplaceStatement(world, t).txn) < Rank(t)
  {
    if t.pc.Updating? {
      UpdateDescends(world, t);
    } else {
      DatasetNext(world, t);
    }
  }

  lemma ReadingDescends(world: World, t: Txn)
    requires t.op.Replace? && !t.pc.Dimensions? && !t.pc.CategoriesOf? && ReplaceStatement(world, t).Runs?
    ensures Rank(ReplaceStatement(world, t).txn) < Rank(t)
  {
    if t.pc.Locked? || t.pc.ProviderInserted? {
      ProviderNext(world, t);
    } else if t.pc.Emptying? || t.pc.Clearing? {
      ClearedNext(world, t);
    } else if t.pc.ProviderSelected? || t.pc.Inserting? || t.pc.Updating? {
      DatasetDescends(world, t);
    }
  }

  lemma EraseObservationsNext(world: World, t: Txn)
    ensures EraseObservations(world, t).Runs? ==> EraseObservations(world, t).txn.pc == Erasing
  {
  }

  lemma EraseDatasetNext(world: World, t: Txn)
    ensures EraseDataset(world, t).Runs? ==> EraseDataset(world, t).txn.pc == Committing(Removed)
  {
  }

  lemma DeleteDescends(world: World, t: Txn)
    requires DeleteStatement(world, t).Runs?
    ensures Rank(DeleteStatement(world, t).txn) < Rank(t)
  {
    if t.pc.Locked? {
      EraseObservationsNext(world, t);
    } else if t.pc.Erasing? {
      EraseDatasetNext(world, t);
    }
  }

  lemma StatementDescends(world: World, t: Txn)
    requires Statement(world, t).Runs?
    ensures Rank(Statement(world, t).txn) < Rank(t)
  {
    if t.op.Delete? {
      DeleteDescends(world, t);
    } else if t.pc.Dimensions? || t.pc.CategoriesOf? {
      WritingDescends(world, t);
    } else {
      ReadingDescends(world, t);
    }
  }

  /** One transaction has moved, and nearer to its end. */
  ghost predicate Descends(s: State, tid: nat, s': State)
    requires tid < |s.txns|
  {
    && |s'.txns| == |s.txns| && s'.txns == s.txns[tid := s'.txns[tid]]
    && Rank(s'.txns[tid]) < Rank(s.txns[tid])
  }

  lemma EndDescends(s: State, tid: nat, outcome: Outcome, db: Db, ending: Ending)
    requires tid < |s.txns| && !s.txns[tid].pc.Done?
    ensures Descends(s, tid, Finish(s, tid, outcome, db)) && Descends(s, tid, Fail(s, tid))
    ensures Descends(s, tid, Roll(s, tid, ending))
  {
  }

  lemma RanDescends(s: State, tid: nat)
    requires tid < |s.txns| && Statement(s.world, s.txns[tid]).Runs?
    ensures Descends(s, tid, Ran(s, tid, Statement(s.world, s.txns[tid])))
  {
    StatementDescends(s.world, s.txns[tid]);
  }

  lemma AdvanceDescends(s: State, tid: nat)
    requires tid < |s.txns| && Advance(s, tid).Goes?
    ensures Descends(s, tid, Advance(s, tid).state)
  {
    if !s.txns[tid].pc.Begun? {
      var effect := Statement(s.world, s.txns[tid]);
      match effect
      case Runs(_, _, _) => RanDescends(s, tid);
      case Ends(outcome, db) => EndDescends(s, tid, outcome, db, Answered);
      case Fails => EndDescends(s, tid, Removed, s.world.db, Answered);
    }
  }

  /** Every step and every abort brings the end nearer. */
  lemma NextDescends(s: State, e: Event)
    requires !e.Arrive? && Next(s, e).Some?
    ensures Total(Next(s, e).value.txns) < Total(s.txns)
  {
    var s' := Next(s, e).value;
    if e.Go? {
      AdvanceDescends(s, e.tid);
    } else {
      EndDescends(s, e.tid, Removed, s.world.db, RolledBack);
    }
    TotalUpdate(s.txns, e.tid, s'.txns[e.tid]);
  }

  /** A run without arrivals is no longer than the steps its transactions have left. */
  lemma {:induction false} RunsEnd(s: State, events: seq<Event>)
    requires Run(s, events).Some? && forall k :: 0 <= k < |events| ==> !events[k].Arrive?
    ensures |events| + Total(Run(s, events).value.txns) <= Total(s.txns)
  {
    if events != [] {
      var n := |events| - 1;
      RunsEnd(s, events[..n]);
      NextDescends(Run(s, events[..n]).value, events[n]);
    }
  }

  // Every operation can be driven to its answer.

  /** How many transactions are in flight. */
  function Open(txns: seq<Txn>): nat {
    if txns == [] then 0 else Open(txns[..|txns| - 1]) + (if txns[|txns| - 1].pc.Done? then 0 else 1)
  }

  lemma {:induction false} OpenUpdate(txns: seq<Txn>, tid: nat, t: Txn)
    requires tid < |txns|
    ensures Open(txns[tid := t]) == Open(txns) - (if txns[tid].pc.Done? then 0 else 1) + (if t.pc.Done? then 0 else 1)
  {
    var n := |txns| - 1;
    if tid == n {
      assert txns[tid := t][..n] == txns[..n];
    } else {
      OpenUpdate(txns[..n], tid, t);
      assert txns[tid := t][..n] == txns[..n][tid := t];
    }
  }

  lemma {:induction false} SomeOpen(txns: seq<Txn>) returns (tid: nat)
    requires Open(txns) > 0
    ensures tid < |txns| && !txns[tid].pc.Done?
  {
    tid := |txns| - 1;
    if txns[tid].pc.Done? {
      tid := SomeOpen(txns[..tid]);
    }
  }

  /** Everything in flight has only texts that are valid UTF-8 without byte 0, and a stamp that jsonb holds. */
  ghost predicate AllHeld(s: State) {
    forall tid: nat :: tid < |s.txns| && !s.txns[tid].pc.Done? ==> AlwaysHeld(s.world.setting, s.txns[tid].op)
  }

  lemma AlwaysIsHeld(setting: Setting, catalog: Catalog, op: Operation)
    requires AlwaysHeld(setting, op)
    ensures HeldBy(setting, catalog, op)
  {
  }

  /** One transaction has taken a step: it goes on, or it was answered, or it was refused for what could not be held. */
  ghost predicate Stepped(s: State, tid: nat, s': State)
    requires tid < |s.txns|
  {
    && s'.world.setting == s.world.setting && |s'.txns| == |s.txns|
    && s'.txns == s.txns[tid := s'.txns[tid]] && s'.txns[tid].op == s.txns[tid].op
    && if !s'.txns[tid].pc.Done? then s'.log == s.log && s'.failures == s.failures
       else AnsweredNext(s, s', s.txns[tid].op) || RefusedNext(s, s', s.txns[tid].op)
  }

  ghost predicate AnsweredNext(s: State, s': State, op: Operation) {
    |s'.log| == |s.log| + 1 && s'.log[..|s.log|] == s.log && s'.log[|s.log|].op == op && s'.failures == s.failures
  }

  ghost predicate RefusedNext(s: State, s': State, op: Operation) {
    && s'.log == s.log && s'.failures == s.failures + [Failure(op, |s.log|)]
    && !HeldBy(s.world.setting, s.world.catalog, op)
  }

  lemma RanSteps(s: State, tid: nat, effect: Effect)
    requires tid < |s.txns| && effect.Runs? && effect.txn.op == s.txns[tid].op && !effect.txn.pc.Done?
    ensures Stepped(s, tid, Ran(s, tid, effect))
  {
  }

  lemma EndSteps(s: State, tid: nat, outcome: Outcome, db: Db)
    requires tid < |s.txns|
    ensures Stepped(s, tid, Finish(s, tid, outcome, db))
    ensures !HeldBy(s.world.setting, s.world.catalog, s.txns[tid].op) ==> Stepped(s, tid, Fail(s, tid))
  {
  }

  lemma AdvanceSteps(s: State, tid: nat)
    requires Inv(s) && tid < |s.txns| && Advance(s, tid).Goes?
    ensures Stepped(s, tid, Advance(s, tid).state)
  {
    var t := s.txns[tid];
    if HoldsLock(t) {
      assert Own(s.world, t) && Submitted(s.world.setting, t.op);
      StatementOk(s.world, t);
      var effect := Statement(s.world, t);
      if effect.Runs? {
        RanSteps(s, tid, effect);
      } else {
        var (outcome, db) := if effect.Ends? then (effect.outcome, effect.db) else (Removed, s.world.db);
        EndSteps(s, tid, outcome, db);
      }
    }
  }

  /** An operation in flight is answered, refused or still in flight; refused only if it is not free. */
  lemma StepCounts(s: State, tid: nat, s': State)
    requires tid < |s.txns| && !s.txns[tid].pc.Done? && Stepped(s, tid, s')
    ensures Open(s'.txns) + |s'.log| + |s'.failures| == Open(s.txns) + |s.log| + |s.failures|
    ensures |s'.log| >= |s.log| && |s'.failures| >= |s.failures|
    ensures AlwaysHeld(s.world.setting, s.txns[tid].op) ==> |s'.failures| == |s.failures|
  {
    OpenUpdate(s.txns, tid, s'.txns[tid]);
    if AlwaysHeld(s.world.setting, s.txns[tid].op) {
      AlwaysIsHeld(s.world.setting, s.world.catalog, s.txns[tid].op);
    }
  }

  lemma StayHeld(s: State, tid: nat, s': State)
    requires tid < |s.txns| && !s.txns[tid].pc.Done? && Stepped(s, tid, s') && AllHeld(s)
    ensures AllHeld(s')
  {
  }

  lemma {:induction false} RunFirst(s: State, e: Event, events: seq<Event>)
    requires Next(s, e).Some?
    ensures Run(s, [e] + events) == Run(Next(s, e).value, events)
  {
    var all, n := [e] + events, |events|;
    if events == [] {
      assert all == [e] && all[..0] == [];
    } else {
      assert all[..n] == [e] + events[..n - 1];
      RunFirst(s, e, events[..n - 1]);
    }
  }

  /** A schedule that leaves nothing in flight, with every operation answered or refused. */
  ghost predicate Finishes(s: State, events: seq<Event>) {
    && (forall k :: 0 <= k < |events| ==> events[k].Go?)
    && Run(s, events).Some?
    && var s' := Run(s, events).value;
       && Open(s'.txns) == 0 && |s'.log| >= |s.log| && |s'.failures| >= |s.failures|
       && |s'.log| + |s'.failures| == |s.log| + |s.failures| + Open(s.txns)
  }

  lemma FinishesFirst(s: State, tid: nat, rest: seq<Event>)
    requires tid < |s.txns| && Advance(s, tid).Goes? && Stepped(s, tid, Advance(s, tid).state)
    requires Finishes(Advance(s, tid).state, rest)
    ensures Finishes(s, [Go(tid)] + rest)
    ensures Run(s, [Go(tid)] + rest) == Run(Advance(s, tid).state, rest)
  {
    assert Next(s, Go(tid)) == Some(Advance(s, tid).state);
    RunFirst(s, Go(tid), rest);
    StepCounts(s, tid, Advance(s, tid).state);
  }

  /** From every reachable state there is a schedule, without aborts, that leaves nothing in flight. When every
      text in flight is valid UTF-8 without byte 0, and jsonb holds every stamp, every operation gets its answer. */
  lemma {:induction false} EverybodyCanFinish(s: State) returns (events: seq<Event>)
    requires Inv(s)
    ensures Finishes(s, events)
    ensures AllHeld(s) ==> |Run(s, events).value.log| == |s.log| + Open(s.txns)
    decreases Total(s.txns)
  {
    if Open(s.txns) == 0 {
      events := [];
    } else {
      var tid := SomeOpen(s.txns);
      var goes := NoDeadlock(s, tid);
      var s' := Advance(s, goes).state;
      NextDescends(s, Go(goes));
      AdvanceOk(s, goes);
      AdvanceSteps(s, goes);
      StepCounts(s, goes, s');
      if AllHeld(s) {
        StayHeld(s, goes, s');
      }
      var rest := EverybodyCanFinish(s');
      events := [Go(goes)] + rest;
      FinishesFirst(s, goes, rest);
    }
  }
}
