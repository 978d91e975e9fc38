/** What the operations answer, read off the history alone: which operations stored, replaced, refused and removed, with
    which spellings and counts. */
module Answers {
  import opened Basics
  import opened Index
  import opened Model
  import opened Naming
  import opened Remap
  import opened Payload
  import opened PayloadLaws
  import opened Presentation
  import opened Protocol
  import opened Safety
  import opened History

  /** Record j stored identity i, and no later record deletes it. */
  predicate StandsFrom(log: seq<Record>, i: Identity, j: int) {
    && 0 <= j < |log| && log[j].op.Replace? && IdentityOf(log[j].op) == i && log[j].outcome.Stored?
    && forall l :: j < l < |log| ==> !(log[l].op.Delete? && IdentityOf(log[l].op) == i)
  }

  /** Identity i was stored and has not been deleted since. */
  ghost predicate Stands(log: seq<Record>, i: Identity) {
    exists j :: StandsFrom(log, i, j)
  }

  /** The last record decides, or leaves it as it was. */
  lemma StandsSnoc(log: seq<Record>, i: Identity)
    requires log != []
    ensures var last, before := log[|log| - 1], log[..|log| - 1];
      Stands(log, i) <==>
        if IdentityOf(last.op) == i && last.op.Delete? then false
        else Stands(before, i) || (IdentityOf(last.op) == i && last.outcome.Stored?)
  {
    var n, before := |log| - 1, log[..|log| - 1];
    if Stands(log, i) {
      var j :| StandsFrom(log, i, j);
      if j < n {
        assert StandsFrom(before, i, j);
      }
    }
    if Stands(before, i) && !(IdentityOf(log[n].op) == i && log[n].op.Delete?) {
      var j :| StandsFrom(before, i, j);
      assert StandsFrom(log, i, j);
    }
    if IdentityOf(log[n].op) == i && log[n].outcome.Stored? && log[n].op.Replace? {
      assert StandsFrom(log, i, n);
    }
  }

  lemma {:induction false} StandsIffHeld(setting: Setting, log: seq<Record>, i: Identity)
    requires Correct(setting, log)
    ensures i in Replay(log).datasets <==> Stands(log, i)
  {
    if log != [] {
      var n := |log| - 1;
      CorrectPrefix(setting, log, n);
      StandsIffHeld(setting, log[..n], i);
      assert log[n].outcome == Answer(setting, Replay(log[..n]), log[n].op);
      StandsSnoc(log, i);
    }
  }

  lemma RunRecorded(setting: Setting, events: seq<Event>, s: State)
    requires Run(Initial(setting), events) == Some(s)
    ensures Correct(setting, s.log) && Justified(setting, s.log, s.failures) && LogSubmitted(setting, s.log)
  {
    InitialOk(setting);
    RunOk(Initial(setting), events);
    SettingStays(Initial(setting), events);
  }

  /** In every run: a deletion is answered as done, whether or not there was anything to delete. A replacement is
      refused as existing exactly when its dataset stands and it may not replace; otherwise it is stored, as created
      exactly when the dataset does not stand. */
  lemma AnsweredAsHistorySays(setting: Setting, events: seq<Event>, s: State, k: nat)
    requires Run(Initial(setting), events) == Some(s) && k < |s.log|
    ensures s.log[k].op.Delete? ==> s.log[k].outcome == Removed
    ensures s.log[k].op.Replace? ==>
      (s.log[k].outcome == DatasetExists <==> Stands(s.log[..k], IdentityOf(s.log[k].op)) && !s.log[k].op.r.replace)
    ensures s.log[k].op.Replace? && s.log[k].outcome != DatasetExists ==>
      s.log[k].outcome.Stored? && (s.log[k].outcome.created <==> !Stands(s.log[..k], IdentityOf(s.log[k].op)))
  {
    RunRecorded(setting, events, s);
    CorrectPrefix(setting, s.log, k);
    StandsIffHeld(setting, s.log[..k], IdentityOf(s.log[k].op));
    assert s.log[k].outcome == Answer(setting, Replay(s.log[..k]), s.log[k].op);
  }

  // Summaries, in plain terms.

  predicate HoldsValue(cells: seq<Cell>, k: int) {
    exists i :: 0 <= i < |cells| && cells[i].index == k
      && (cells[i].content.numeric.Some? || cells[i].content.text.Some?)
  }

  /** What a summary tells of a replacement: the product of its category counts, how many logical indexes hold a number
      or a text, and how many hold neither. */
  ghost predicate Tells(summary: Summary, provider: Bytes, dataset: Bytes, stamp: Bytes, r: Replacement) {
    && summary.providerCode == provider && summary.datasetCode == dataset && summary.sourceStamp == stamp
    && summary.cellCount
       == Product(seq(|r.dimensions|, i requires 0 <= i < |r.dimensions| => |r.dimensions[i].categories|))
    && summary.valuedCount == |set k | 0 <= k < summary.cellCount && HoldsValue(r.cells, k)|
    && summary.nullCount == |set k | 0 <= k < summary.cellCount && !HoldsValue(r.cells, k)|
  }

  lemma ValuedIffHolds(r: Replacement)
    requires WellFormedReplacement(r, SCHEMA_MAX_CELLS)
    ensures KeysWhere(CellMap(r.cells), Valued) == set k | 0 <= k < r.cellCount && HoldsValue(r.cells, k)
  {
    forall k ensures k in KeysWhere(CellMap(r.cells), Valued) <==> 0 <= k < r.cellCount && HoldsValue(r.cells, k) {
      if k in KeysWhere(CellMap(r.cells), Valued) {
        CellMapMember(r.cells, k);
        var i :| 0 <= i < |r.cells| && r.cells[i].index == k;
        CellMapAt(r.cells, i);
      }
      if HoldsValue(r.cells, k) {
        var i :| 0 <= i < |r.cells| && r.cells[i].index == k
          && (r.cells[i].content.numeric.Some? || r.cells[i].content.text.Some?);
        CellMapAt(r.cells, i);
      }
    }
  }

  lemma CountsTell(r: Replacement)
    requires WellFormedReplacement(r, SCHEMA_MAX_CELLS)
    ensures r.valuedCount == |set k | 0 <= k < r.cellCount && HoldsValue(r.cells, k)|
    ensures r.cellCount - r.valuedCount == |set k | 0 <= k < r.cellCount && !HoldsValue(r.cells, k)|
  {
    ValuedCellsCount(r.cells);
    ValuedIffHolds(r);
    NullsAreTheRest(r.cells, r.cellCount);
  }

  lemma NullsAreTheRest(cells: seq<Cell>, count: nat)
    ensures count
            == |set k | 0 <= k < count && HoldsValue(cells, k)| + |set k | 0 <= k < count && !HoldsValue(cells, k)|
  {
    var valued, rest := set k | 0 <= k < count && HoldsValue(cells, k), set k | 0 <= k < count && !HoldsValue(cells, k);
    SplitSize(valued, rest, count);
  }

  lemma SplitSize(a: set<int>, b: set<int>, count: nat)
    requires a !! b && forall k :: k in a + b <==> 0 <= k < count
    ensures |a| + |b| == count
  {
    assert a + b == Below(count);
  }

  lemma SummaryTells(provider: Bytes, dataset: Bytes, stamp: Bytes, r: Replacement)
    requires WellFormedReplacement(r, SCHEMA_MAX_CELLS)
    ensures Tells(SummaryOf(provider, dataset, stamp, r.cellCount, r.valuedCount), provider, dataset, stamp, r)
  {
    CountsTell(r);
    assert SizesOf(AxesOf(r.dimensions))
        == seq(|r.dimensions|, i requires 0 <= i < |r.dimensions| => |r.dimensions[i].categories|);
  }

  // Spellings.

  predicate StoresProvider(record: Record, p: Key) {
    record.op.Replace? && record.op.r.provider.key == p && record.outcome.Stored?
  }

  /** Record k is the first one that stored anything for provider p. */
  predicate FirstFor(log: seq<Record>, p: Key, k: int) {
    0 <= k < |log| && StoresProvider(log[k], p) && forall j :: 0 <= j < k ==> !StoresProvider(log[j], p)
  }

  /** Record k created the dataset that stands now. */
  predicate CreatedAt(log: seq<Record>, i: Identity, k: int) {
    StandsFrom(log, i, k) && log[k].outcome.created
  }

  lemma ProviderStep(setting: Setting, catalog: Catalog, record: Record, p: Key)
    requires record.outcome == Answer(setting, catalog, record.op)
    ensures var after := Perform(catalog, record.op, record.id);
      && (p in after.providers <==> p in catalog.providers || StoresProvider(record, p))
      && (p in catalog.providers ==> after.providers[p] == catalog.providers[p])
      && (p !in catalog.providers && p in after.providers ==> after.providers[p] == record.op.r.provider.spelling)
  {
  }

  lemma DatasetStep(setting: Setting, catalog: Catalog, record: Record, i: Identity)
    requires record.outcome == Answer(setting, catalog, record.op)
    requires i in Perform(catalog, record.op, record.id).datasets
    ensures var e := Perform(catalog, record.op, record.id).datasets[i];
      if i in catalog.datasets then
        && !(record.op.Delete? && IdentityOf(record.op) == i)
        && e.spelling == catalog.datasets[i].spelling && e.id == catalog.datasets[i].id
      else
        && record.op.Replace? && IdentityOf(record.op) == i && record.outcome.Stored? && record.outcome.created
        && e.spelling == record.op.r.dataset.spelling && e.id == record.id
  {
  }

  lemma LastAnswer(setting: Setting, log: seq<Record>)
    requires Correct(setting, log) && log != []
    ensures var n := |log| - 1;
      Correct(setting, log[..n]) && log[n].outcome == Answer(setting, Replay(log[..n]), log[n].op)
    ensures Replay(log) == Perform(Replay(log[..|log| - 1]), log[|log| - 1].op, log[|log| - 1].id)
  {
    CorrectPrefix(setting, log, |log| - 1);
  }

  lemma {:induction false} NeverStoredFor(setting: Setting, log: seq<Record>, p: Key, j: nat)
    requires Correct(setting, log) && p !in Replay(log).providers && j < |log|
    ensures !StoresProvider(log[j], p)
  {
    var n := |log| - 1;
    LastAnswer(setting, log);
    ProviderStep(setting, Replay(log[..n]), log[n], p);
    assert p !in Replay(log[..n]).providers && !StoresProvider(log[n], p);
    if j < n {
      NeverStoredFor(setting, log[..n], p, j);
      assert log[..n][j] == log[j];
    }
  }

  lemma FirstForKept(log: seq<Record>, p: Key, k: int)
    requires log != [] && FirstFor(log[..|log| - 1], p, k)
    ensures FirstFor(log, p, k) && log[k] == log[..|log| - 1][k]
  {
    forall j | 0 <= j < k ensures !StoresProvider(log[j], p) {
      assert log[..|log| - 1][j] == log[j];
    }
  }

  /** A provider is spelled as in the first replacement that was stored for it. */
  lemma {:induction false} ProviderSpelledFirst(setting: Setting, log: seq<Record>, p: Key) returns (k: int)
    requires Correct(setting, log) && p in Replay(log).providers
    ensures FirstFor(log, p, k) && Replay(log).providers[p] == log[k].op.r.provider.spelling
  {
    var n := |log| - 1;
    LastAnswer(setting, log);
    ProviderStep(setting, Replay(log[..n]), log[n], p);
    if p in Replay(log[..n]).providers {
      k := ProviderSpelledFirst(setting, log[..n], p);
      FirstForKept(log, p, k);
    } else {
      k := n;
      forall j | 0 <= j < n ensures !StoresProvider(log[j], p) {
        NeverStoredFor(setting, log[..n], p, j);
        assert log[..n][j] == log[j];
      }
    }
  }

  lemma CreatedAtKept(log: seq<Record>, i: Identity, k: int)
    requires log != [] && CreatedAt(log[..|log| - 1], i, k)
    requires !(log[|log| - 1].op.Delete? && IdentityOf(log[|log| - 1].op) == i)
    ensures CreatedAt(log, i, k) && log[k] == log[..|log| - 1][k]
  {
    forall l | k < l < |log| ensures !(log[l].op.Delete? && IdentityOf(log[l].op) == i) {
      assert l < |log| - 1 ==> log[..|log| - 1][l] == log[l];
    }
  }

  /** A dataset is spelled, and has the id, as it was created. */
  lemma {:induction false} DatasetSpelledAtCreation(setting: Setting, log: seq<Record>, i: Identity) returns (k: int)
    requires Correct(setting, log) && i in Replay(log).datasets
    ensures CreatedAt(log, i, k)
    ensures Replay(log).datasets[i].spelling == log[k].op.r.dataset.spelling && Replay(log).datasets[i].id == log[k].id
  {
    var n := |log| - 1;
    LastAnswer(setting, log);
    DatasetStep(setting, Replay(log[..n]), log[n], i);
    if i in Replay(log[..n]).datasets {
      k := DatasetSpelledAtCreation(setting, log[..n], i);
      CreatedAtKept(log, i, k);
    } else {
      k := n;
    }
  }

  /** A stored answer tells what is in force after it. */
  lemma StoredAnswer(setting: Setting, catalog: Catalog, record: Record)
    requires record.outcome == Answer(setting, catalog, record.op) && record.outcome.Stored?
    requires HeldBy(setting, catalog, record.op)
    ensures record.op.Replace? && record.op.r.sourceStamp in setting.jsonb
    ensures var after, i := Perform(catalog, record.op, record.id), IdentityOf(record.op);
      && i.provider in after.providers && i in after.datasets
      && record.outcome.summary
         == SummaryOf(after.providers[i.provider], after.datasets[i].spelling, setting.jsonb[record.op.r.sourceStamp],
                      record.op.r.cellCount, record.op.r.valuedCount)
  {
  }

  /** In every run: the summary that a stored replacement is answered with has the provider's first spelling, the
      dataset's spelling at its creation, the stamp as jsonb spells it, and the counts of the replacement. */
  lemma AnswerTells(setting: Setting, events: seq<Event>, s: State, k: nat) returns (first: int, created: int)
    requires Run(Initial(setting), events) == Some(s) && k < |s.log| && s.log[k].outcome.Stored?
    ensures s.log[k].op.Replace? && s.log[k].op.r.sourceStamp in setting.jsonb
    ensures FirstFor(s.log[..k + 1], s.log[k].op.r.provider.key, first)
    ensures CreatedAt(s.log[..k + 1], IdentityOf(s.log[k].op), created)
    ensures Tells(s.log[k].outcome.summary, s.log[first].op.r.provider.spelling, s.log[created].op.r.dataset.spelling,
                  setting.jsonb[s.log[k].op.r.sourceStamp], s.log[k].op.r)
  {
    RunRecorded(setting, events, s);
    var op, before, upto := s.log[k].op, s.log[..k], s.log[..k + 1];
    assert s.log[k].outcome == Answer(setting, Replay(before), op) && HeldBy(setting, Replay(before), op);
    assert upto[..k] == before && upto[k] == s.log[k] && |upto| == k + 1;
    StoredAnswer(setting, Replay(before), s.log[k]);
    CorrectPrefix(setting, s.log, k + 1);
    LastAnswer(setting, upto);
    first := ProviderSpelledFirst(setting, upto, op.r.provider.key);
    created := DatasetSpelledAtCreation(setting, upto, IdentityOf(op));
    assert upto[first] == s.log[first] && upto[created] == s.log[created];
    SummaryTells(s.log[first].op.r.provider.spelling, s.log[created].op.r.dataset.spelling,
                 setting.jsonb[op.r.sourceStamp], op.r);
  }
}
