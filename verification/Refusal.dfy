/** What PostgreSQL refuses of what the parsers accept. No text column or parameter holds a byte 0, which NormalizeCode
    and the channel parsers let through, or bytes that are not UTF-8, which only the body of a request is checked for
    and not the codes in its path; jsonb refuses some source stamps. An operation is never refused exactly when it has
    none of them. */
module Refusal {
  import opened Basics
  import opened Utf8
  import opened Index
  import opened Model
  import opened Naming
  import opened Decimal
  import opened Structure
  import opened Channels
  import opened Remap
  import opened Payload
  import opened PayloadLaws
  import opened Presentation
  import opened ExportImport
  import opened Database
  import opened Protocol
  import opened Safety
  import opened Liveness

  // In every run.

  /** Whatever was answered could be held, whatever was refused could not, at its place in the history. */
  lemma AnsweredOrRefused(setting: Setting, events: seq<Event>, s: State)
    requires Run(Initial(setting), events) == Some(s)
    ensures Justified(setting, s.log, s.failures)
  {
    InitialOk(setting);
    RunOk(Initial(setting), events);
    SettingStays(Initial(setting), events);
  }

  /** A replacement whose contents cannot be held is never stored. */
  lemma NeverStored(setting: Setting, events: seq<Event>, s: State, k: nat)
    requires Run(Initial(setting), events) == Some(s) && k < |s.log|
    requires s.log[k].op.Replace? && !ContentsHold(setting, s.log[k].op.r)
    ensures s.log[k].outcome == DatasetExists
  {
    AnsweredOrRefused(setting, events, s);
    InitialOk(setting);
    RunOk(Initial(setting), events);
  }

  /** An operation whose provider, or whose dataset key, cannot be sent is never answered at all. */
  lemma NeverAnswered(setting: Setting, events: seq<Event>, s: State, k: nat)
    requires Run(Initial(setting), events) == Some(s) && k < |s.log|
    ensures Sendable(s.log[k].op)
  {
    AnsweredOrRefused(setting, events, s);
  }

  predicate Lists(failures: seq<Failure>, op: Operation) {
    exists k :: 0 <= k < |failures| && failures[k].op == op
  }

  ghost predicate RefusedIn(setting: Setting, events: seq<Event>, op: Operation) {
    Run(Initial(setting), events).Some? && Lists(Run(Initial(setting), events).value.failures, op)
  }

  lemma RefusedIsNotHeld(setting: Setting, events: seq<Event>, op: Operation)
    requires RefusedIn(setting, events, op)
    ensures !AlwaysHeld(setting, op)
  {
    var s := Run(Initial(setting), events).value;
    AnsweredOrRefused(setting, events, s);
    var k :| 0 <= k < |s.failures| && s.failures[k].op == op;
    var catalog := Replay(s.log[..s.failures[k].at]);
    if AlwaysHeld(setting, op) {
      AlwaysIsHeld(setting, catalog, op);
    }
  }

  /** The only operation around. */
  ghost predicate Only(s: State, op: Operation) {
    && (forall k :: 0 <= k < |s.txns| ==> s.txns[k].op == op)
    && (forall k :: 0 <= k < |s.log| ==> s.log[k].op == op)
    && (forall k :: 0 <= k < |s.failures| ==> s.failures[k].op == op)
  }

  lemma StepOnly(s: State, tid: nat, s': State, op: Operation)
    requires Only(s, op) && tid < |s.txns| && Stepped(s, tid, s')
    ensures Only(s', op)
  {
    forall k | 0 <= k < |s'.log| ensures s'.log[k].op == op {
      assert k < |s.log| ==> s'.log[..|s.log|][k] == s.log[k];
    }
  }

  lemma {:induction false} RunOnly(s: State, events: seq<Event>, op: Operation)
    requires Inv(s) && Only(s, op) && Run(s, events).Some? && forall k :: 0 <= k < |events| ==> events[k].Go?
    ensures Only(Run(s, events).value, op)
  {
    if events != [] {
      var n := |events| - 1;
      RunOnly(s, events[..n], op);
      RunOk(s, events[..n]);
      AdvanceSteps(Run(s, events[..n]).value, events[n].tid);
      StepOnly(Run(s, events[..n]).value, events[n].tid, Run(s, events).value, op);
    }
  }

  /** The state right after its arrival. */
  ghost function Alone(setting: Setting, op: Operation): State {
    Initial(setting).(txns := [Txn(op, Begun, 0, [], 0, false, NO_WRITES)])
  }

  lemma Arrived(setting: Setting, op: Operation)
    requires Submitted(setting, op)
    ensures Next(Initial(setting), Arrive(op)) == Some(Alone(setting, op))
    ensures Only(Alone(setting, op), op) && Open(Alone(setting, op).txns) == 1
  {
    assert [] + Alone(setting, op).txns == Alone(setting, op).txns;
    assert Alone(setting, op).txns[..0] == [];
  }

  /** A run of one operation alone, to its end. */
  lemma AloneEnds(setting: Setting, op: Operation) returns (events: seq<Event>, end: State)
    requires Submitted(setting, op)
    ensures Run(Initial(setting), events) == Some(end)
    ensures |end.log| + |end.failures| == 1 && Only(end, op)
  {
    var s := Alone(setting, op);
    Arrived(setting, op);
    InitialOk(setting);
    NextOk(Initial(setting), Arrive(op));
    var rest := EverybodyCanFinish(s);
    end := Run(s, rest).value;
    RunOnly(s, rest, op);
    events := [Arrive(op)] + rest;
    RunFirst(Initial(setting), Arrive(op), rest);
  }

  /** Alone on an empty store, an operation that cannot be held is refused. */
  lemma AloneRefused(setting: Setting, op: Operation) returns (events: seq<Event>)
    requires Submitted(setting, op) && !AlwaysHeld(setting, op)
    ensures RefusedIn(setting, events, op)
  {
    var end;
    events, end := AloneEnds(setting, op);
    AnsweredOrRefused(setting, events, end);
    assert end.log[..0] == [];
    assert |end.log| > 0 ==> HeldBy(setting, EMPTY, op);
    assert |end.failures| > 0 ==> end.failures[0].op == op;
  }

  // What an operation carries, and which texts there are.

  predicate InCode(code: Code, t: Bytes) {
    t == code.spelling || t == code.key
  }

  predicate InDimension(dimension: Dimension, t: Bytes) {
    InCode(dimension.code, t) || exists j :: 0 <= j < |dimension.categories| && InCode(dimension.categories[j].code, t)
  }

  predicate InCell(cell: Cell, t: Bytes) {
    cell.content.text == Some(t) || cell.content.status == Some(t)
  }

  /** A text of the operation: in an identity, a dimension, a category, a value or a status. */
  predicate Carries(op: Operation, t: Bytes) {
    match op
    case Delete(provider, dataset) => t == provider.key || t == dataset.key
    case Replace(r) =>
      || InCode(r.provider, t) || InCode(r.dataset, t)
      || (exists i :: 0 <= i < |r.dimensions| && InDimension(r.dimensions[i], t))
      || (exists i :: 0 <= i < |r.cells| && InCell(r.cells[i], t))
  }

  /** The UTF-8 encoding of Unicode scalar values without U+0000. */
  ghost predicate IsText(t: Bytes) {
    exists points :: Scalars(points) && 0 !in points && EncodeAll(points) == t
  }

  lemma TextHoldsIff(t: Bytes)
    ensures TextHolds(t) <==> IsText(t)
  {
    ValidIffEncoded(t);
    if TextHolds(t) {
      var points :| Scalars(points) && EncodeAll(points) == t;
      NoByteZero(points);
    }
    if IsText(t) {
      var points :| Scalars(points) && 0 !in points && EncodeAll(points) == t;
      NoByteZero(points);
    }
  }

  lemma DimensionsHoldIff(r: Replacement)
    ensures DimensionsHold(r, |r.dimensions|) <==>
            forall i, t :: 0 <= i < |r.dimensions| && InDimension(r.dimensions[i], t) ==> TextHolds(t)
  {
    if forall i, t :: 0 <= i < |r.dimensions| && InDimension(r.dimensions[i], t) ==> TextHolds(t) {
      forall i | 0 <= i < |r.dimensions| ensures CodeHolds(r.dimensions[i].code) && CategoriesHold(r.dimensions[i]) {
        DimensionHolds(r.dimensions[i]);
      }
    }
  }

  lemma DimensionHolds(dimension: Dimension)
    requires forall t :: InDimension(dimension, t) ==> TextHolds(t)
    ensures CodeHolds(dimension.code) && CategoriesHold(dimension)
  {
    assert InDimension(dimension, dimension.code.spelling) && InDimension(dimension, dimension.code.key);
    forall j | 0 <= j < |dimension.categories| ensures CodeHolds(dimension.categories[j].code) {
      var code := dimension.categories[j].code;
      assert InCode(code, code.spelling) && InCode(code, code.key);
      assert InDimension(dimension, code.spelling) && InDimension(dimension, code.key);
    }
  }

  lemma CellsHoldIff(cells: seq<Cell>)
    ensures CellsHold(cells) <==> forall i, t :: 0 <= i < |cells| && InCell(cells[i], t) ==> TextHolds(t)
  {
    if forall i, t :: 0 <= i < |cells| && InCell(cells[i], t) ==> TextHolds(t) {
      forall i | 0 <= i < |cells|
        ensures OptionalTextHolds(cells[i].content.text) && OptionalTextHolds(cells[i].content.status)
      {
        assert cells[i].content.text.Some? ==> InCell(cells[i], cells[i].content.text.value);
        assert cells[i].content.status.Some? ==> InCell(cells[i], cells[i].content.status.value);
      }
    }
  }

  lemma AlwaysHeldIff(setting: Setting, op: Operation)
    ensures AlwaysHeld(setting, op) <==>
      && (forall t :: Carries(op, t) ==> TextHolds(t))
      && (op.Replace? ==> op.r.sourceStamp in setting.jsonb)
  {
    match op
    case Delete(provider, dataset) =>
      assert Carries(op, provider.key) && Carries(op, dataset.key);
    case Replace(r) =>
      DimensionsHoldIff(r);
      CellsHoldIff(r.cells);
      assert Carries(op, r.provider.spelling) && Carries(op, r.provider.key);
      assert Carries(op, r.dataset.spelling) && Carries(op, r.dataset.key);
  }

  /** A submitted operation is never refused, in any run, exactly when every text it carries is the UTF-8 encoding of
      characters other than U+0000 and jsonb holds its stamp. */
  lemma NeverRefusedIff(setting: Setting, op: Operation)
    requires Submitted(setting, op)
    ensures (forall events :: !RefusedIn(setting, events, op)) <==>
      && (forall t :: Carries(op, t) ==> IsText(t))
      && (op.Replace? ==> op.r.sourceStamp in setting.jsonb)
  {
    NeverRefusedIffHeld(setting, op);
    AlwaysHeldIff(setting, op);
    forall t ensures TextHolds(t) <==> IsText(t) {
      TextHoldsIff(t);
    }
  }

  lemma NeverRefusedIffHeld(setting: Setting, op: Operation)
    requires Submitted(setting, op)
    ensures (forall events :: !RefusedIn(setting, events, op)) <==> AlwaysHeld(setting, op)
  {
    if AlwaysHeld(setting, op) {
      forall events ensures !RefusedIn(setting, events, op) {
        if RefusedIn(setting, events, op) {
          RefusedIsNotHeld(setting, events, op);
        }
      }
    } else {
      var events := AloneRefused(setting, op);
    }
  }

  // Accepted payloads that are refused.

  const NUL: Bytes := [0]

  function NoValues(): map<Bytes, Channels.Entry<Number>> {
    map[]
  }

  function NulTexts(): map<Bytes, Channels.Entry<Bytes>> {
    map[Print(0) := Value(NUL)]
  }

  /** One dimension with one category, `"value": {}` and these texts. */
  function OneCell(code: Bytes, stamp: Bytes, text: Channel<Bytes>): Body {
    Body(false, Some(stamp), [code], map[code := map[code := 0]], Sparse(NoValues()), text, Absent)
  }

  /** `"text": {"0": "\u0000"}`. */
  function NulBody(code: Bytes, stamp: Bytes): Body {
    OneCell(code, stamp, Sparse(NulTexts()))
  }

  lemma OneCellStructure(code: Bytes, stamp: Bytes, text: Channel<Bytes>, normalize: Normalizer)
    requires code in normalize
    ensures StructureAccepted([code], OneCell(code, stamp, text).dimension, normalize, 1)
    ensures CountOf(OneCell(code, stamp, text), normalize) == 1
  {
    var body := OneCell(code, stamp, text);
    var c := Code(code, normalize[code]);
    var dimensions := [Dimension(c, 0, [Category(c, 0)])];
    SmallestView(c, normalize);
    assert IndexOf(body.dimension[code], dimensions[0]) by {
      assert dimensions[0].categories[0].code.spelling == code;
    }
    StructureReparsed(body.id, body.dimension, dimensions, [], normalize);
    AsRequestsAxes(dimensions);
    assert SizesOf(AxesOf(dimensions)) == [1] && Product([1]) == 1 by {
      assert [1][1..] == [];
    }
  }

  /** It is accepted, */
  lemma NulAccepted(code: Bytes, stamp: Bytes, normalize: Normalizer)
    requires code in normalize
    ensures Accepted(code, code, NulBody(code, stamp), normalize, 1)
    ensures CountOf(NulBody(code, stamp), normalize) == 1
  {
    OneCellStructure(code, stamp, Sparse(NulTexts()), normalize);
    PrintIsCanonical(0);
    assert IndexKey(Print(0), 1);
  }

  lemma NulText()
    ensures SparseValues(NulTexts(), 1) == map[0 := NUL]
  {
  }

  lemma NulMerged()
    ensures MergeOf(map[], map[0 := NUL], map[]) == map[0 := Content(None, Some(NUL), None)]
  {
  }

  predicate IsNul(content: Content) {
    content.text == Some(NUL)
  }

  lemma OneNul()
    ensures KeysWhere(map[0 := Content(None, Some(NUL), None)], IsNul) != {}
  {
    assert 0 in KeysWhere(map[0 := Content(None, Some(NUL), None)], IsNul);
  }

  lemma NulChannels(count: nat)
    ensures SparseValues(NoValues(), count) == map[] && StatusDenoted(Absent, count) == map[]
  {
  }

  lemma NulCells(code: Bytes, stamp: Bytes)
    ensures RequestCells(NulBody(code, stamp), 1) == map[0 := Content(None, Some(NUL), None)]
    ensures KeysWhere(RequestCells(NulBody(code, stamp), 1), IsNul) != {}
  {
    NulText();
    NulMerged();
    NulChannels(1);
    var body := NulBody(code, stamp);
    assert Denoted(body.value, 1) == SparseValues(NoValues(), 1);
    assert Denoted(body.text, 1) == SparseValues(NulTexts(), 1);
    assert body.status == Absent;
    OneNul();
  }

  /** A cell with a byte 0 in it. */
  lemma NulCellFails(cells: seq<Cell>)
    requires DistinctIndexes(cells) && KeysWhere(CellMap(cells), IsNul) != {}
    ensures !CellsHold(cells)
  {
    var k := Inhabited(KeysWhere(CellMap(cells), IsNul));
    CellMapMember(cells, k);
    var i :| 0 <= i < |cells| && cells[i].index == k;
    CellMapAt(cells, i);
    assert NUL[0] == 0 && 0 in NUL;
  }

  lemma MovedIsNul(dimensions: seq<RequestDimension>, cells: map<int, Content>, stored: seq<Cell>)
    requires WellFormed(AxesOfRequest(dimensions)) && StoredCells(dimensions, cells, stored)
    requires forall k :: k in cells ==> 0 <= k < Count(AxesOfRequest(dimensions))
    requires KeysWhere(cells, IsNul) != {}
    ensures DistinctIndexes(stored) && KeysWhere(CellMap(stored), IsNul) != {}
  {
    StoredIsCanonical(dimensions);
    MoveConserves(AxesOfRequest(dimensions), AxesOf(StoredDimensions(dimensions)), cells, IsNul);
  }

  lemma NulStays(code: Bytes, stamp: Bytes, normalize: Normalizer, r: Replacement)
    requires code in normalize && ParsedAs(code, code, NulBody(code, stamp), normalize, r)
    ensures DistinctIndexes(r.cells) && KeysWhere(CellMap(r.cells), IsNul) != {}
  {
    NulAccepted(code, stamp, normalize);
    NulCells(code, stamp);
    AcceptedIsWellFormed([code], NulBody(code, stamp).dimension, normalize);
    MovedIsNul(RequestOf(NulBody(code, stamp), normalize), RequestCells(NulBody(code, stamp), 1), r.cells);
  }

  /** and what it parses to carries the byte 0 in a cell: alone on an empty store it is refused. */
  lemma NulRefused(code: Bytes, stamp: Bytes, setting: Setting, r: Replacement) returns (events: seq<Event>)
    requires code in setting.normalize && ParsedAs(code, code, NulBody(code, stamp), setting.normalize, r)
    ensures Submitted(setting, Replace(r)) && !ContentsHold(setting, r)
    ensures RefusedIn(setting, events, Replace(r))
  {
    NulAccepted(code, stamp, setting.normalize);
    AcceptedIsStorable(code, code, NulBody(code, stamp), setting.normalize, 1, r);
    NulStays(code, stamp, setting.normalize, r);
    NulCellFails(r.cells);
    events := AloneRefused(setting, Replace(r));
  }

  // A path code that is not UTF-8: `%FF`. NormalizeCode returns it as its own key.

  const STRAY: Bytes := [0xFF]

  lemma StrayByte()
    ensures !TextHolds(STRAY)
  {
    assert FirstLength(STRAY) == 0;
  }

  /** A deletion under it is refused, */
  lemma StrayDeletion(setting: Setting, dataset: Code) returns (events: seq<Event>)
    ensures Submitted(setting, Delete(Code(STRAY, STRAY), dataset))
    ensures RefusedIn(setting, events, Delete(Code(STRAY, STRAY), dataset))
  {
    StrayByte();
    events := AloneRefused(setting, Delete(Code(STRAY, STRAY), dataset));
  }

  /** a replacement under it is accepted by the parser, */
  lemma StrayAccepted(code: Bytes, stamp: Bytes, normalize: Normalizer)
    requires code in normalize && STRAY in normalize
    ensures Accepted(STRAY, code, OneCell(code, stamp, Absent), normalize, 1)
  {
    OneCellStructure(code, stamp, Absent, normalize);
  }

  /** and whatever its body is, it is refused, and answered in no run. */
  lemma StrayRefused(dataset: Bytes, body: Body, setting: Setting, maxCells: int, r: Replacement)
    returns (events: seq<Event>)
    requires Accepted(STRAY, dataset, body, setting.normalize, maxCells) && maxCells <= SCHEMA_MAX_CELLS
    requires ParsedAs(STRAY, dataset, body, setting.normalize, r)
    ensures Submitted(setting, Replace(r)) && RefusedIn(setting, events, Replace(r))
    ensures forall more, s, k :: Run(Initial(setting), more) == Some(s) && 0 <= k < |s.log| ==>
      s.log[k].op != Replace(r)
  {
    AcceptedIsStorable(STRAY, dataset, body, setting.normalize, maxCells, r);
    StrayByte();
    assert !Sendable(Replace(r));
    events := AloneRefused(setting, Replace(r));
    forall more, s, k | Run(Initial(setting), more) == Some(s) && 0 <= k < |s.log|
      ensures s.log[k].op != Replace(r)
    {
      NeverAnswered(setting, more, s, k);
    }
  }
}
