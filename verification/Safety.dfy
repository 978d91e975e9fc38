/** The invariant of every reachable state, by induction over runs. */
module Safety {
  import opened Database
  import opened Protocol
  import opened Invariant
  import opened Statements
  import opened Commit

  /** The finished operations, one at a time in the order of their ends. */
  ghost function Replay(log: seq<Record>): Catalog {
    if log == [] then EMPTY else
      var last := log[|log| - 1];
      Perform(Replay(log[..|log| - 1]), last.op, last.id)
  }

  /** Every operation was answered as that serial order says. */
  ghost predicate Correct(setting: Setting, log: seq<Record>) {
    forall k :: 0 <= k < |log| ==> log[k].outcome == Answer(setting, Replay(log[..k]), log[k].op)
  }

  predicate HoldsLock(t: Txn) {
    !t.pc.Begun? && !t.pc.Done?
  }

  ghost predicate Holds(s: State, tid: nat)
    requires tid < |s.txns|
  {
    var k := s.world.setting.lockOf(IdentityOf(s.txns[tid].op));
    k in s.locks && s.locks[k] == tid
  }

  /** A lock is held by the running transaction past its first statement, and by nobody else. */
  ghost predicate Locking(s: State) {
    && (forall tid: nat :: tid < |s.txns| && HoldsLock(s.txns[tid]) ==> Holds(s, tid))
    && (forall k :: k in s.locks ==> s.locks[k] < |s.txns| && HoldsLock(s.txns[s.locks[k]])
                                     && s.world.setting.lockOf(IdentityOf(s.txns[s.locks[k]].op)) == k)
  }

  ghost predicate ShareProvider(w: Writes, v: Writes) {
    exists p :: p in w.providers && p in v.providers
  }

  /** No two transactions have the same new provider in hand. */
  ghost predicate ProvidersApart(s: State) {
    forall t: nat, u: nat :: t < |s.txns| && u < |s.txns| && t != u ==> !ShareProvider(s.txns[t].w, s.txns[u].w)
  }

  /** An operation was answered only if everything it sent could be held then, and refused only if not. */
  ghost predicate Justified(setting: Setting, log: seq<Record>, failures: seq<Failure>) {
    && (forall k :: 0 <= k < |log| ==> HeldBy(setting, Replay(log[..k]), log[k].op))
    && (forall k :: 0 <= k < |failures| ==>
          failures[k].at <= |log| && !HeldBy(setting, Replay(log[..failures[k].at]), failures[k].op))
  }

  ghost predicate LogSubmitted(setting: Setting, log: seq<Record>) {
    forall k :: 0 <= k < |log| ==> Submitted(setting, log[k].op)
  }

  ghost predicate Recorded(s: State) {
    && s.world.catalog == Replay(s.log) && Correct(s.world.setting, s.log) && LogSubmitted(s.world.setting, s.log)
    && Justified(s.world.setting, s.log, s.failures)
  }

  ghost predicate Owned(s: State) {
    forall tid: nat :: tid < |s.txns| ==> Own(s.world, s.txns[tid])
  }

  ghost predicate AllSubmitted(s: State) {
    forall tid: nat :: tid < |s.txns| ==> Submitted(s.world.setting, s.txns[tid].op)
  }

  ghost predicate Inv(s: State) {
    Faithful(s.world) && Owned(s) && AllSubmitted(s) && Locking(s) && ProvidersApart(s) && Recorded(s)
  }

  // Locks.

  lemma DifferentIdentities(s: State, t: nat, u: nat)
    requires Locking(s) && t < |s.txns| && u < |s.txns| && t != u
    requires HoldsLock(s.txns[t]) && HoldsLock(s.txns[u])
    ensures IdentityOf(s.txns[t].op) != IdentityOf(s.txns[u].op)
  {
    assert Holds(s, t) && Holds(s, u);
  }

  lemma LockingTaken(s: State, tid: nat, s': State)
    requires Locking(s) && tid < |s.txns| && s.txns[tid].pc.Begun? && TakeLock(s, tid) == Goes(s')
    ensures Locking(s')
  {
    forall u: nat | u < |s'.txns| && HoldsLock(s'.txns[u]) ensures Holds(s', u) {
      if u != tid {
        assert Holds(s, u);
      }
    }
  }

  lemma LockingKept(s: State, tid: nat, s': State, t': Txn)
    requires Locking(s) && tid < |s.txns| && HoldsLock(s.txns[tid]) && HoldsLock(t') && t'.op == s.txns[tid].op
    requires s'.world.setting == s.world.setting && s'.locks == s.locks && s'.txns == s.txns[tid := t']
    ensures Locking(s')
  {
    forall u: nat | u < |s'.txns| && HoldsLock(s'.txns[u]) ensures Holds(s', u) {
      assert Holds(s, u);
    }
  }

  lemma LockingReleased(s: State, tid: nat, s': State, ending: Ending)
    requires Locking(s) && tid < |s.txns| && s'.world.setting == s.world.setting
    requires s'.locks == Release(s.locks, tid) && s'.txns == s.txns[tid := Finished(s.txns[tid], ending)]
    ensures Locking(s')
  {
    forall u: nat | u < |s'.txns| && HoldsLock(s'.txns[u]) ensures Holds(s', u) {
      assert u != tid && Holds(s, u);
    }
  }

  lemma ApartKept(s: State, tid: nat, s': State, t': Txn)
    requires ProvidersApart(s) && tid < |s.txns| && s'.txns == s.txns[tid := t']
    requires forall u: nat :: u < |s.txns| && u != tid ==> !ShareProvider(t'.w, s.txns[u].w)
    ensures ProvidersApart(s')
  {
    forall t: nat, u: nat | t < |s'.txns| && u < |s'.txns| && t != u
      ensures !ShareProvider(s'.txns[t].w, s'.txns[u].w)
    {
      if u == tid {
        assert !ShareProvider(t'.w, s.txns[t].w);
      } else if t != tid {
        assert !ShareProvider(s.txns[t].w, s.txns[u].w);
      }
    }
  }

  lemma OwnedKept(s: State, tid: nat, s': State, t': Txn)
    requires AllSubmitted(s) && tid < |s.txns| && t'.op == s.txns[tid].op
    requires s'.txns == s.txns[tid := t'] && s'.world.setting == s.world.setting
    requires Own(s'.world, t') && forall u: nat :: u < |s.txns| && u != tid ==> Own(s'.world, s.txns[u])
    ensures Owned(s') && AllSubmitted(s')
  {
    forall u: nat | u < |s'.txns| ensures Submitted(s'.world.setting, s'.txns[u].op) {
      assert Submitted(s.world.setting, s.txns[u].op);
    }
  }

  // Steps.

  lemma RollOk(s: State, tid: nat, ending: Ending)
    requires Inv(s) && tid < |s.txns|
    ensures Inv(Roll(s, tid, ending))
  {
    var s', t' := Roll(s, tid, ending), Finished(s.txns[tid], ending);
    assert Own(s.world, s.txns[tid]);
    OwnedKept(s, tid, s', t');
    LockingReleased(s, tid, s', ending);
    ApartKept(s, tid, s', t');
  }

  lemma FailOk(s: State, tid: nat)
    requires Inv(s) && tid < |s.txns| && !HeldBy(s.world.setting, s.world.catalog, s.txns[tid].op)
    ensures Inv(Fail(s, tid))
  {
    RollOk(s, tid, Refusal);
    assert s.log[..|s.log|] == s.log;
  }

  lemma TakeLockOk(s: State, tid: nat, s': State)
    requires Inv(s) && tid < |s.txns| && s.txns[tid].pc.Begun? && TakeLock(s, tid) == Goes(s')
    ensures Inv(s')
  {
    var t' := s.txns[tid].(pc := Locked);
    assert Own(s.world, s.txns[tid]);
    OwnedKept(s, tid, s', t');
    LockingTaken(s, tid, s');
    ApartKept(s, tid, s', t');
  }

  lemma ArrivedOwned(s: State, s': State, t: Txn)
    requires Owned(s) && AllSubmitted(s) && Own(s.world, t) && Submitted(s.world.setting, t.op)
    requires s'.txns == s.txns + [t] && s'.world == s.world
    ensures Owned(s') && AllSubmitted(s')
  {
    forall u: nat | u < |s'.txns| ensures Own(s'.world, s'.txns[u]) && Submitted(s'.world.setting, s'.txns[u].op) {
      if u < |s.txns| {
        assert Own(s.world, s.txns[u]) && Submitted(s.world.setting, s.txns[u].op);
      }
    }
  }

  lemma ArrivedApart(s: State, s': State, t: Txn)
    requires Locking(s) && ProvidersApart(s) && t.pc.Begun? && t.w == NO_WRITES
    requires s'.txns == s.txns + [t] && s'.world == s.world && s'.locks == s.locks
    ensures Locking(s') && ProvidersApart(s')
  {
    forall u: nat | u < |s'.txns| && HoldsLock(s'.txns[u]) ensures Holds(s', u) {
      assert Holds(s, u);
    }
    forall a: nat, u: nat | a < |s'.txns| && u < |s'.txns| && a != u
      ensures !ShareProvider(s'.txns[a].w, s'.txns[u].w)
    {
      if a < |s.txns| && u < |s.txns| {
        assert !ShareProvider(s.txns[a].w, s.txns[u].w);
      }
    }
  }

  lemma ArriveOk(s: State, op: Operation)
    requires Inv(s) && Submitted(s.world.setting, op)
    ensures Inv(s.(txns := s.txns + [Txn(op, Begun, 0, [], 0, false, NO_WRITES)]))
  {
    var t := Txn(op, Begun, 0, [], 0, false, NO_WRITES);
    var s' := s.(txns := s.txns + [t]);
    assert Own(s.world, t);
    ArrivedOwned(s, s', t);
    ArrivedApart(s, s', t);
  }

  /** Drawing an identity value concerns nobody else. */
  lemma RunsOk(s: State, tid: nat, effect: Effect)
    requires Inv(s) && tid < |s.txns| && HoldsLock(s.txns[tid])
    requires Continues(s.world, effect, s.txns[tid]) && !Waits(s, tid, effect.txn.w)
    ensures Inv(Ran(s, tid, effect))
  {
    var s' := Ran(s, tid, effect);
    var world' := s'.world;
    DrawnFaithful(s.world, world');
    forall u: nat | u < |s.txns| && u != tid ensures Own(world', s.txns[u]) {
      assert Own(s.world, s.txns[u]);
      OwnStays(s.world, world', s.txns[u]);
    }
    OwnedKept(s, tid, s', effect.txn);
    LockingKept(s, tid, s', effect.txn);
    forall u: nat | u < |s.txns| && u != tid ensures !ShareProvider(effect.txn.w, s.txns[u].w) {
      assert !Clash(effect.txn.w, s.txns[u].w);
    }
    ApartKept(s, tid, s', effect.txn);
  }

  lemma DrawnFaithful(world: World, world': World)
    requires Faithful(world) && world' == world.(providerIds := world'.providerIds, datasetIds := world'.datasetIds)
    requires world.providerIds <= world'.providerIds && world.datasetIds <= world'.datasetIds
    ensures Faithful(world')
  {
    forall p | p in world'.db.providers ensures ProviderFaithful(world', p, world'.db.providers[p]) {
      assert ProviderFaithful(world, p, world.db.providers[p]);
    }
    forall j ensures EntryOk(world', j) && EntryHeld(world', j) {
      assert EntryOk(world, j) && EntryHeld(world, j);
    }
    forall d: nat ensures FaithfulAt(world', d) {
      assert FaithfulAt(world, d);
      assert Live(world', d) <==> Live(world, d) by {
        if d < |world'.datasetIds| {
          assert EntryOk(world, world'.datasetIds[d]);
        }
      }
    }
  }

  /** What holds of every record holds of the longer log. */
  lemma LogEnd(setting: Setting, log: seq<Record>, last: Record)
    requires Correct(setting, log) && LogSubmitted(setting, log)
    requires forall k :: 0 <= k < |log| ==> HeldBy(setting, Replay(log[..k]), log[k].op)
    requires last.outcome == Answer(setting, Replay(log), last.op) && Submitted(setting, last.op)
    requires HeldBy(setting, Replay(log), last.op)
    ensures Correct(setting, log + [last]) && LogSubmitted(setting, log + [last])
    ensures forall k :: 0 <= k < |log| + 1 ==> HeldBy(setting, Replay((log + [last])[..k]), (log + [last])[k].op)
  {
    var more := log + [last];
    forall k | 0 <= k < |more|
      ensures more[k].outcome == Answer(setting, Replay(more[..k]), more[k].op)
      ensures HeldBy(setting, Replay(more[..k]), more[k].op) && Submitted(setting, more[k].op)
    {
      assert more[..k] == log[..k];
      assert k == |log| ==> log[..k] == log;
    }
  }

  lemma FailuresEnd(setting: Setting, log: seq<Record>, last: Record, failure: Failure)
    requires failure.at <= |log| && !HeldBy(setting, Replay(log[..failure.at]), failure.op)
    ensures failure.at <= |log| + 1 && !HeldBy(setting, Replay((log + [last])[..failure.at]), failure.op)
  {
    assert (log + [last])[..failure.at] == log[..failure.at];
  }

  lemma RecordedEnd(s: State, tid: nat, db: Db)
    requires Recorded(s) && tid < |s.txns| && HeldBy(s.world.setting, s.world.catalog, s.txns[tid].op)
    requires Submitted(s.world.setting, s.txns[tid].op)
    ensures Recorded(Finish(s, tid, Answer(s.world.setting, s.world.catalog, s.txns[tid].op), db))
  {
    var t := s.txns[tid];
    var last := Record(t.op, t.datasetId, Answer(s.world.setting, s.world.catalog, t.op));
    LogEnd(s.world.setting, s.log, last);
    assert (s.log + [last])[..|s.log|] == s.log;
    forall k | 0 <= k < |s.failures|
      ensures s.failures[k].at <= |s.log| + 1
      ensures !HeldBy(s.world.setting, Replay((s.log + [last])[..s.failures[k].at]), s.failures[k].op)
    {
      FailuresEnd(s.world.setting, s.log, last, s.failures[k]);
    }
  }

  // Ends.

  lemma OthersAfterReplace(s: State, tid: nat, u: nat)
    requires Inv(s) && tid < |s.txns| && u < |s.txns| && u != tid
    requires s.txns[tid].op.Replace? && s.txns[tid].pc.Committing?
    ensures Own(Committed(s.world, s.txns[tid], Sees(s.world, s.txns[tid])), s.txns[u])
  {
    var world, t, v := s.world, s.txns[tid], s.txns[u];
    var world' := Committed(world, t, Sees(world, t));
    assert Own(world, t) && Own(world, v);
    OwnMidway(world, t);
    assert Submitted(world.setting, t.op);
    CompleteIsSettled(world, t);
    if HoldsLock(v) {
      DifferentIdentities(s, tid, u);
      ReplaceUnnoticed(world, t, IdentityOf(v.op));
    }
    if KnowsProvider(v) {
      assert !ShareProvider(t.w, v.w);
      ReplaceProvider(world, t, v.op.r.provider.key);
    }
    OwnStays(world, world', v);
  }

  lemma OthersAfterDelete(s: State, tid: nat, u: nat)
    requires Inv(s) && tid < |s.txns| && u < |s.txns| && u != tid
    requires s.txns[tid].op.Delete? && s.txns[tid].pc.Committing?
    ensures Own(Committed(s.world, s.txns[tid], Sees(s.world, s.txns[tid])), s.txns[u])
  {
    var world, t, v := s.world, s.txns[tid], s.txns[u];
    assert Own(world, t) && Own(world, v) && EntryOk(world, IdentityOf(t.op));
    if HoldsLock(v) {
      DifferentIdentities(s, tid, u);
      DeleteUnnoticed(world, t, IdentityOf(v.op));
    }
    DeleteProviders(world, t);
    OwnStays(world, Committed(world, t, Sees(world, t)), v);
  }

  lemma CommitOk(s: State, tid: nat)
    requires Inv(s) && tid < |s.txns| && s.txns[tid].pc.Committing?
    ensures Faithful(Committed(s.world, s.txns[tid], Sees(s.world, s.txns[tid])))
    ensures forall u: nat :: u < |s.txns| && u != tid ==>
      Own(Committed(s.world, s.txns[tid], Sees(s.world, s.txns[tid])), s.txns[u])
  {
    var t := s.txns[tid];
    assert Own(s.world, t);
    if t.op.Replace? {
      OwnMidway(s.world, t);
      assert Submitted(s.world.setting, t.op);
      ReplaceCommits(s.world, t);
      forall u: nat | u < |s.txns| && u != tid ensures Own(Committed(s.world, t, Sees(s.world, t)), s.txns[u]) {
        OthersAfterReplace(s, tid, u);
      }
    } else {
      DeleteCommits(s.world, t);
      forall u: nat | u < |s.txns| && u != tid ensures Own(Committed(s.world, t, Sees(s.world, t)), s.txns[u]) {
        OthersAfterDelete(s, tid, u);
      }
    }
  }

  lemma FinishedWorld(s: State, tid: nat, effect: Effect)
    requires Inv(s) && tid < |s.txns| && HoldsLock(s.txns[tid]) && Ended(s.world, s.txns[tid], effect)
    ensures Faithful(Committed(s.world, s.txns[tid], effect.db))
    ensures forall u: nat :: u < |s.txns| && u != tid ==> Own(Committed(s.world, s.txns[tid], effect.db), s.txns[u])
  {
    if Refused(s.world.catalog, s.txns[tid].op) {
      assert Committed(s.world, s.txns[tid], effect.db) == s.world;
    } else {
      CommitOk(s, tid);
    }
  }

  lemma FinishedOwned(s: State, tid: nat, outcome: Outcome, db: Db)
    requires AllSubmitted(s) && tid < |s.txns| && Passed(s.world.setting, s.txns[tid])
    requires forall u: nat :: u < |s.txns| && u != tid ==> Own(Committed(s.world, s.txns[tid], db), s.txns[u])
    ensures Owned(Finish(s, tid, outcome, db)) && AllSubmitted(Finish(s, tid, outcome, db))
  {
    var s', t' := Finish(s, tid, outcome, db), Finished(s.txns[tid], Answered);
    assert Own(s'.world, t');
    OwnedKept(s, tid, s', t');
  }

  lemma FinishedApart(s: State, tid: nat, outcome: Outcome, db: Db)
    requires Locking(s) && ProvidersApart(s) && tid < |s.txns|
    ensures Locking(Finish(s, tid, outcome, db)) && ProvidersApart(Finish(s, tid, outcome, db))
  {
    var s' := Finish(s, tid, outcome, db);
    LockingReleased(s, tid, s', Answered);
    ApartKept(s, tid, s', Finished(s.txns[tid], Answered));
  }

  lemma FinishOk(s: State, tid: nat, effect: Effect)
    requires Inv(s) && tid < |s.txns| && HoldsLock(s.txns[tid]) && Ended(s.world, s.txns[tid], effect)
    ensures Inv(Finish(s, tid, effect.outcome, effect.db))
  {
    assert Own(s.world, s.txns[tid]);
    FinishedWorld(s, tid, effect);
    FinishedOwned(s, tid, effect.outcome, effect.db);
    FinishedApart(s, tid, effect.outcome, effect.db);
    RecordedEnd(s, tid, effect.db);
  }

  // Runs.

  lemma AdvanceOk(s: State, tid: nat)
    requires Inv(s) && tid < |s.txns| && Advance(s, tid).Goes?
    ensures Inv(Advance(s, tid).state)
  {
    var t := s.txns[tid];
    assert Own(s.world, t);
    if t.pc.Begun? {
      TakeLockOk(s, tid, TakeLock(s, tid).state);
    } else {
      StatementOk(s.world, t);
      var effect := Statement(s.world, t);
      if effect.Ends? {
        FinishOk(s, tid, effect);
      } else if effect.Fails? {
        FailOk(s, tid);
      } else {
        RunsOk(s, tid, effect);
      }
    }
  }

  lemma NextOk(s: State, e: Event)
    requires Inv(s) && Next(s, e).Some?
    ensures Inv(Next(s, e).value)
  {
    match e
    case Arrive(op) => ArriveOk(s, op);
    case Go(tid) => AdvanceOk(s, tid);
    case Abort(tid) => RollOk(s, tid, RolledBack);
  }

  lemma InitialOk(setting: Setting)
    ensures Inv(Initial(setting))
  {
  }

  /** Every state that any interleaving of any submitted operations and any aborts can reach. */
  lemma {:induction false} RunOk(s: State, events: seq<Event>)
    requires Inv(s) && Run(s, events).Some?
    ensures Inv(Run(s, events).value)
  {
    if events != [] {
      var before := Run(s, events[..|events| - 1]);
      RunOk(s, events[..|events| - 1]);
      NextOk(before.value, events[|events| - 1]);
    }
  }

  /** The setting is fixed for a whole run. */
  lemma {:induction false} SettingStays(s: State, events: seq<Event>)
    requires Run(s, events).Some?
    ensures Run(s, events).value.world.setting == s.world.setting
  {
    if events != [] {
      SettingStays(s, events[..|events| - 1]);
    }
  }
}
